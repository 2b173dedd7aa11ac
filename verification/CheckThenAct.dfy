/**
 * The race shared by ingest (insert, prune, commit) and bin creation (count, insert): an operation
 * looks at the rows, and acts on what it saw some time later, while others do the same.
 *
 * A row is named by the operation that adds it. When operation p looks, it fixes a set keep of at
 * most max rows, its own among them, and a set del of rows it will delete; when it acts, its row
 * appears and del disappears. The bound is max plus the number of operations that were in flight
 * beside the one with the latest look among those that acted.
 */
module CheckThenAct {
  import opened Prelude

  /** stamp orders looks; peers are the other operations in flight at the look. */
  datatype Look = Look(stamp: nat, keep: set<Id>, del: set<Id>, peers: set<Id>)

  /** last is the latest look among the operations that have acted. */
  datatype Flight = Flight(rows: set<Id>, open: map<Id, Option<Look>>, last: Look, clock: nat)

  function Start(rows: set<Id>): Flight {
    Flight(rows, map[], Look(0, rows, {}, {}), 0)
  }

  function Begin(f: Flight, p: Id): Flight {
    f.(open := f.open[p := None])
  }

  function LookAt(f: Flight, p: Id, keep: set<Id>, del: set<Id>): Flight {
    f.(open := f.open[p := Some(Look(f.clock + 1, keep, del, f.open.Keys - {p}))], clock := f.clock + 1)
  }

  function Act(f: Flight, p: Id): Flight
    requires p in f.open && f.open[p].Some?
  {
    var look := f.open[p].value;
    f.(rows := f.rows + {p} - look.del,
       open := f.open - {p},
       last := if look.stamp > f.last.stamp then look else f.last)
  }

  function Leave(f: Flight, p: Id): Flight {
    f.(open := f.open - {p})
  }

  function Remove(f: Flight, gone: set<Id>): Flight {
    f.(rows := f.rows - gone)
  }

  ghost predicate LookOk(f: Flight, p: Id, look: Look, max: nat, c: nat) {
    && 0 < look.stamp <= f.clock && look.stamp != f.last.stamp
    && |look.keep| <= max && |look.peers| <= c - 1
    && p in look.keep + look.del
    && (look.stamp > f.last.stamp ==> f.rows <= look.keep + look.del + look.peers)
    && (look.stamp < f.last.stamp ==> p in f.last.peers)
  }

  ghost predicate Ordered(f: Flight, p: Id, q: Id)
    requires p in f.open && q in f.open
  {
    f.open[p].Some? && q !in f.open[p].value.peers && f.open[q].Some?
    ==> f.open[q].value.stamp > f.open[p].value.stamp
  }

  ghost predicate LooksOk(f: Flight, max: nat, c: nat) {
    forall p :: p in f.open && f.open[p].Some? ==> LookOk(f, p, f.open[p].value, max, c)
  }

  ghost predicate AllOrdered(f: Flight) {
    forall p, q :: p in f.open && q in f.open && p != q ==> Ordered(f, p, q)
  }

  ghost predicate StampsDiffer(f: Flight) {
    forall p, q :: p in f.open && q in f.open && p != q && f.open[p].Some? && f.open[q].Some?
      ==> f.open[p].value.stamp != f.open[q].value.stamp
  }

  ghost predicate LastOk(f: Flight, max: nat, c: nat) {
    && f.last.stamp <= f.clock
    && |f.last.keep| <= max && |f.last.peers| <= c - 1
    && f.rows <= f.last.keep + f.last.peers
  }

  ghost predicate Inv(f: Flight, max: nat, c: nat) {
    && c >= 1 && |f.open| <= c
    && LastOk(f, max, c) && LooksOk(f, max, c) && AllOrdered(f) && StampsDiffer(f)
  }

  lemma StartInv(rows: set<Id>, max: nat, c: nat)
    requires |rows| <= max && c >= 1
    ensures Inv(Start(rows), max, c)
  {
  }

  /** Removing operations or rows, or beginning an operation, breaks no relation between looks. */
  lemma FewerLooks(f: Flight, f': Flight, max: nat, c: nat)
    requires LooksOk(f, max, c) && AllOrdered(f) && StampsDiffer(f)
    requires f'.rows <= f.rows && f'.clock == f.clock && f'.last == f.last
    requires forall p :: p in f'.open && f'.open[p].Some? ==> p in f.open && f'.open[p] == f.open[p]
    requires forall p :: p in f'.open && f'.open[p].None? ==> p !in f.open || f.open[p].None?
    ensures LooksOk(f', max, c) && AllOrdered(f') && StampsDiffer(f')
  {
    forall p | p in f'.open && f'.open[p].Some? ensures LookOk(f', p, f'.open[p].value, max, c) {
      assert LookOk(f, p, f.open[p].value, max, c);
    }
    hide LookOk;
    forall p, q | p in f'.open && q in f'.open && p != q ensures Ordered(f', p, q) {
      assert p in f.open && q in f.open ==> Ordered(f, p, q);
    }
  }

  lemma BeginInv(f: Flight, p: Id, max: nat, c: nat)
    requires Inv(f, max, c) && p !in f.open && |f.open| < c
    ensures Inv(Begin(f, p), max, c)
  {
    hide LooksOk, AllOrdered, StampsDiffer;
    FewerLooks(f, Begin(f, p), max, c);
  }

  lemma LeaveInv(f: Flight, p: Id, max: nat, c: nat)
    requires Inv(f, max, c)
    ensures Inv(Leave(f, p), max, c)
  {
    hide LooksOk, AllOrdered, StampsDiffer;
    FewerLooks(f, Leave(f, p), max, c);
    assert Leave(f, p).open.Keys == f.open.Keys - {p};
    SubsetSize(f.open.Keys - {p}, f.open.Keys);
  }

  lemma RemoveInv(f: Flight, gone: set<Id>, max: nat, c: nat)
    requires Inv(f, max, c)
    ensures Inv(Remove(f, gone), max, c)
  {
    hide LooksOk, AllOrdered, StampsDiffer;
    FewerLooks(f, Remove(f, gone), max, c);
  }

  lemma LookInv(f: Flight, p: Id, keep: set<Id>, del: set<Id>, max: nat, c: nat)
    requires Inv(f, max, c) && p in f.open && f.open[p].None?
    requires f.rows + {p} <= keep + del && |keep| <= max
    ensures Inv(LookAt(f, p, keep, del), max, c)
  {
    var f' := LookAt(f, p, keep, del);
    assert |f.open.Keys - {p}| == |f.open.Keys| - 1;
    assert f'.open.Keys == f.open.Keys;
    forall q | q in f'.open && f'.open[q].Some? ensures LookOk(f', q, f'.open[q].value, max, c) {
      assert q != p ==> LookOk(f, q, f.open[q].value, max, c);
    }
    forall q, r | q in f'.open && r in f'.open && q != r ensures Ordered(f', q, r) {
      assert Ordered(f, q, r);
      assert r == p && f.open[q].Some? ==> LookOk(f, q, f.open[q].value, max, c);
    }
    hide AllOrdered;
    forall q | q in f.open && f.open[q].Some? ensures f.open[q].value.stamp <= f.clock {
      assert LookOk(f, q, f.open[q].value, max, c);
    }
  }

  lemma ActInv(f: Flight, p: Id, max: nat, c: nat)
    requires Inv(f, max, c) && p in f.open && f.open[p].Some?
    ensures Inv(Act(f, p), max, c)
  {
    var f' := Act(f, p);
    assert LookOk(f, p, f.open[p].value, max, c);
    assert f'.open.Keys == f.open.Keys - {p};
    SubsetSize(f'.open.Keys, f.open.Keys);
    forall q | q in f'.open && f'.open[q].Some? ensures LookOk(f', q, f'.open[q].value, max, c) {
      assert LookOk(f, q, f.open[q].value, max, c);
      assert Ordered(f, p, q) && Ordered(f, q, p);
    }
    forall q, r | q in f'.open && r in f'.open && q != r ensures Ordered(f', q, r) {
      assert Ordered(f, q, r);
    }
  }

  /** The overshoot is at most the number of operations in flight besides one. */
  lemma Bound(f: Flight, max: nat, c: nat)
    requires Inv(f, max, c)
    ensures |f.rows| <= max + c - 1
  {
    SubsetSize(f.rows, f.last.keep + f.last.peers);
    UnionSize(f.last.keep, f.last.peers);
  }

  /** So is the number of rows an operation sees after looking, with its own row and its deletions. */
  lemma ViewBound(f: Flight, p: Id, max: nat, c: nat)
    requires Inv(f, max, c) && p in f.open && f.open[p].Some?
    ensures |f.rows + {p} - f.open[p].value.del| <= max + c - 1
  {
    var look := f.open[p].value;
    assert LookOk(f, p, look, max, c);
    var latest := if look.stamp > f.last.stamp then look else f.last;
    SubsetSize(f.rows + {p} - look.del, latest.keep + latest.peers);
    UnionSize(latest.keep, latest.peers);
  }
}
