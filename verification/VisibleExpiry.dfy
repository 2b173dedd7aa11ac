/** Short runs from the empty store that show each way in which lazy expiry can be seen. */
module VisibleExpiry {
  import opened Prelude
  import opened NewestFirst
  import opened Limits
  import opened Tables
  import opened WebhookOps
  import opened EagerStore

  const START := State(EMPTY, map[])

  /** After the first operation of a run, the rest. */
  lemma FirstOf(s: State, used: set<Id>, t: int, e: Event, rest: seq<Event>)
    requires WellFormed(e.op) && AllWellFormed(rest)
    ensures AllWellFormed([e] + rest)
    ensures t <= e.env.now && NewIds(e.op) !! used && Allowed(s, e.op, e.env)
         && Legal(Step(s, e.op, e.env).state, used + NewIds(e.op), e.env.now, rest)
       ==> Legal(s, used, t, [e] + rest)
    ensures Replies(s, [e] + rest) == [Step(s, e.op, e.env).reply] + Replies(Step(s, e.op, e.env).state, rest)
    ensures EagerReplies(s.db, [e] + rest)
         == [EagerStep(s.db, e.op, e.env).reply] + EagerReplies(EagerStep(s.db, e.op, e.env).db, rest)
  {
    hide Step, EagerStep, Allowed;
    assert ([e] + rest)[1..] == rest;
  }

  lemma LastOf(s: State, used: set<Id>, t: int, db: Db, e: Event)
    requires WellFormed(e.op)
    ensures t <= e.env.now && NewIds(e.op) !! used && Allowed(s, e.op, e.env) ==> Legal(s, used, t, [e])
    ensures Replies(s, [e]) == [Step(s, e.op, e.env).reply]
    ensures EagerReplies(db, [e]) == [EagerStep(db, e.op, e.env).reply]
  {
    hide Step, EagerStep, Allowed;
    assert [e][1..] == [];
    assert Plays(Step(s, e.op, e.env).state, used + NewIds(e.op), []) && Clocked(e.env.now, []);
  }

  /** The store after a user's first Create. */
  function Created(user: string, name: string, id: Id): State
    requires |id| >= 6
  {
    State(Db(map[id := NewBin(user, name, id, 0)], map[]), map[id := BIN_TTL])
  }

  function CreateFirst(user: string, name: string, id: Id): Event {
    Event(Create(user, name, id), Env(0, true, true, true, true, true))
  }

  lemma AfterCreate(user: string, name: string, id: Id)
    requires |id| == 2 * ID_BYTES
    ensures var op, env := Create(user, name, id), Env(0, true, true, true, true, true);
      && Step(START, op, env).state == Created(user, name, id)
      && EagerStep(EMPTY, op, env).db == Created(user, name, id).db
      && NewIds(op) == {id} && Allowed(START, op, env)
  {
    hide BinName;
    assert BinsOf(EMPTY, user) == {};
    assert Prune(EMPTY, 0) == EMPTY;
    assert ExpiredIds(EMPTY, 0) == {};
  }

  /** A stranger who asks for an expired row that nobody has pruned is told so. */
  lemma StrangerIsTold(user: string, other: string, name: string, id: Id)
    requires user != other && |id| == 2 * ID_BYTES
    ensures var run := [CreateFirst(user, name, id)]
              + [Event(Delete(other, id), Env(BIN_TTL + 1, true, true, true, true, true))];
      && AllWellFormed(run) && Legal(START, {}, 0, run)
      && Replies(START, run)[1] == Fail(Forbidden) && EagerReplies(EMPTY, run)[1] == Fail(NotFound)
  {
    var e1, e2 := CreateFirst(user, name, id), Event(Delete(other, id), Env(BIN_TTL + 1, true, true, true, true, true));
    AfterCreate(user, name, id);
    var s := Created(user, name, id);
    FirstOf(START, {}, 0, e1, [e2]);
    LastOf(s, {} + {id}, 0, s.db, e2);
  }

  lemma UnprunedList(user: string, name: string, id: Id)
    requires |id| == 2 * ID_BYTES
    ensures var s, op := Created(user, name, id), List(user, [id]);
      var env := Env(BIN_TTL + 1, false, true, true, true, true);
      && Allowed(s, op, env)
      && Step(s, op, env).reply == Bins([NewBin(user, name, id, 0)])
      && EagerStep(s.db, op, env).reply == Bins([])
  {
    hide BinName;
    var db := Created(user, name, id).db;
    var times: map<Id, int> := map[id := 0];
    assert CreatedTimes(db, user) == times && times.Keys == {id};
    assert TopN(times, 1, [id]);
    assert RowsOf(db.bins, [id]) == [db.bins[id]] by {
      assert [id][1..] == [] && RowsOf(db.bins, []) == [];
    }
    assert RowsOf(Prune(db, BIN_TTL + 1).bins, [id]) == [] by {
      assert Prune(db, BIN_TTL + 1).bins == map[];
      assert [id][1..] == [];
    }
    hide TopN, CreatedTimes, Prune, RowsOf;
  }

  /** A List whose prune fails shows the expired bin. */
  lemma ExpiredIsListed(user: string, name: string, id: Id)
    requires |id| == 2 * ID_BYTES
    ensures var run := [CreateFirst(user, name, id)]
              + [Event(List(user, [id]), Env(BIN_TTL + 1, false, true, true, true, true))];
      && AllWellFormed(run) && Legal(START, {}, 0, run)
      && Replies(START, run)[1] == Bins([NewBin(user, name, id, 0)]) && EagerReplies(EMPTY, run)[1] == Bins([])
  {
    var e1, e2 := CreateFirst(user, name, id), Event(List(user, [id]), Env(BIN_TTL + 1, false, true, true, true, true));
    AfterCreate(user, name, id);
    UnprunedList(user, name, id);
    var s := Created(user, name, id);
    hide Step, EagerStep, Allowed, Legal, Created, NewBin;
    FirstOf(START, {}, 0, e1, [e2]);
    LastOf(s, {} + {id}, 0, s.db, e2);
  }

  /** A deleted bin whose DEL failed is said to exist. */
  lemma GoneIsSaidToExist(user: string, name: string, id: Id)
    requires |id| == 2 * ID_BYTES
    ensures var run := [CreateFirst(user, name, id)]
              + ([Event(Delete(user, id), Env(1, true, true, true, true, false))]
                 + [Event(PublicExists(id), Env(2, true, true, true, true, true))]);
      && AllWellFormed(run) && Legal(START, {}, 0, run)
      && Replies(START, run)[2] == Exists(true) && EagerReplies(EMPTY, run)[2] == Exists(false)
  {
    var e1, e2, e3 := CreateFirst(user, name, id), Event(Delete(user, id), Env(1, true, true, true, true, false)),
                      Event(PublicExists(id), Env(2, true, true, true, true, true));
    AfterCreate(user, name, id);
    hide BinName;
    var s := Created(user, name, id);
    var s2 := State(EMPTY, s.cache);
    assert DeleteBins(s.db, {id}) == EMPTY;
    assert ExpiredIds(s.db, 1) == {} && Prune(s.db, 1) == s.db;
    assert Step(s, e2.op, e2.env).state == s2 && EagerStep(s.db, e2.op, e2.env).db == EMPTY;
    FirstOf(START, {}, 0, e1, [e2] + [e3]);
    FirstOf(s, {} + {id}, 0, e2, [e3]);
    LastOf(s2, {} + {id} + {}, 1, EMPTY, e3);
  }
}
