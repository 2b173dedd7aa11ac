/** The key of a visitor: six trimmed fields joined by the unit separator, then hashed. The hash is left out. */
module Fingerprint {
  import opened Text

  const SEP: string := [31 as char]

  datatype Record = Record(
    visitorId: string, sessionId: string, ip: string, userAgent: string, referer: string,
    origin: string, country: string, city: string, userId: string, firstPath: string)

  predicate IdChar(c: char) {
    'a' <= c <= 'z' || 'A' <= c <= 'Z' || '0' <= c <= '9' || c == '_' || c == '-'
  }

  predicate ValidId(id: string) {
    8 <= |id| <= 128 && forall i :: 0 <= i < |id| ==> IdChar(id[i])
  }

  function Fields(rec: Record): seq<string> {
    [TrimSpace(rec.visitorId), TrimSpace(rec.ip), TrimSpace(rec.country),
     TrimSpace(rec.city), TrimSpace(rec.userAgent), TrimSpace(rec.referer)]
  }

  function Key(rec: Record): string {
    Join(Fields(rec), SEP)
  }

  /** The cleaning track does before it computes the key. */
  function Normalise(rec: Record): Record {
    Record(
      TrimSpace(rec.visitorId), TrimSpace(rec.sessionId), TrimSpace(rec.ip),
      Truncate(TrimSpace(rec.userAgent), 1024), Truncate(TrimSpace(rec.referer), 1024),
      Truncate(TrimSpace(rec.origin), 512), TrimSpace(rec.country), TrimSpace(rec.city),
      rec.userId, Truncate(rec.firstPath, 512))
  }

  /** Trimmed visitor id, address, country, city, user agent and referer, with the separator between two. */
  lemma KeyIs(rec: Record)
    ensures var sep := "\U{1F}";
      Key(rec) == TrimSpace(rec.visitorId) + sep + (TrimSpace(rec.ip) + sep + (TrimSpace(rec.country) + sep
        + (TrimSpace(rec.city) + sep + (TrimSpace(rec.userAgent) + sep + TrimSpace(rec.referer)))))
  {
    hide TrimSpace;
    var f := Fields(rec);
    assert f[1..][1..] == f[2..] && f[2..][1..] == f[3..] && f[3..][1..] == f[4..] && f[4..][1..] == f[5..];
    assert Join(f[5..], SEP) == f[5];
    assert Join(f[4..], SEP) == f[4] + SEP + f[5];
    assert Join(f[3..], SEP) == f[3] + SEP + Join(f[4..], SEP);
    assert Join(f[2..], SEP) == f[2] + SEP + Join(f[3..], SEP);
    assert Join(f[1..], SEP) == f[1] + SEP + Join(f[2..], SEP);
    assert SEP == "\U{1F}";
  }

  ghost predicate NoSep(s: string) {
    forall i :: 0 <= i < |s| ==> s[i] != SEP[0]
  }

  lemma FirstField(a: string, x: string, b: string, y: string)
    requires NoSep(a) && NoSep(b) && a + SEP + x == b + SEP + y
    ensures a == b && x == y
  {
    var s := a + SEP + x;
    assert s[|a|] == SEP[0] && s[|b|] == SEP[0];
    assert forall i :: 0 <= i < |a| ==> s[i] == a[i];
    assert forall i :: 0 <= i < |b| ==> s[i] == b[i];
    assert |a| == |b|;
    assert a == s[..|a|] && b == s[..|b|];
    assert x == s[|a| + 1..] && y == s[|b| + 1..];
  }

  lemma {:induction false} JoinInjective(a: seq<string>, b: seq<string>)
    requires |a| == |b| >= 1
    requires forall i :: 0 <= i < |a| - 1 ==> NoSep(a[i]) && NoSep(b[i])
    requires Join(a, SEP) == Join(b, SEP)
    ensures a == b
    decreases |a|
  {
    if |a| == 1 {
    } else {
      FirstField(a[0], Join(a[1..], SEP), b[0], Join(b[1..], SEP));
      JoinInjective(a[1..], b[1..]);
      assert a == [a[0]] + a[1..] && b == [b[0]] + b[1..];
    }
  }

  /**
   * Two records have the same key exactly when all six trimmed fields agree, if none of the first
   * five contains the separator. The referer, which comes last and from the client's JSON, may.
   */
  lemma SameKeySameFields(a: Record, b: Record)
    requires forall i :: 0 <= i < 5 ==> NoSep(Fields(a)[i]) && NoSep(Fields(b)[i])
    ensures Key(a) == Key(b) <==> Fields(a) == Fields(b)
  {
    if Key(a) == Key(b) { JoinInjective(Fields(a), Fields(b)); }
  }

  // ----- Exactly when a key belongs to one visitor only -----

  predicate Trimmed(s: string) {
    s != "" ==> !IsSpace(s[0]) && !IsSpace(s[|s| - 1])
  }

  /** A separator that could as well end a trimmed field and start another. */
  predicate CutAt(s: string, p: nat)
    requires p < |s|
  {
    && s[p] == SEP[0]
    && (p > 0 ==> !IsSpace(s[p - 1]))
    && (p + 1 < |s| ==> !IsSpace(s[p + 1]))
  }

  ghost predicate Uncut(s: string) {
    forall p :: 0 <= p < |s| ==> !CutAt(s, p)
  }

  ghost predicate AllTrimmed(f: seq<string>) {
    forall i :: 0 <= i < |f| ==> Trimmed(f[i])
  }

  ghost predicate AllUncut(f: seq<string>) {
    forall i :: 0 <= i < |f| ==> Uncut(f[i])
  }

  /** A join does not start with a space, because neither its first field nor the separator does. */
  lemma JoinStart(f: seq<string>)
    requires AllTrimmed(f)
    ensures Join(f, SEP) != "" ==> !IsSpace(Join(f, SEP)[0])
  {
  }

  /** Fields that do not end at the same place: the longer one has a cut there. */
  lemma LongerIsCut(x: string, y: string, u: string, rest: seq<string>)
    requires |y| < |x| && Trimmed(x) && Trimmed(y) && AllTrimmed(rest)
    requires x + u == y + SEP + Join(rest, SEP)
    ensures CutAt(x, |y|)
  {
    var p, s := |y|, x + u;
    assert x[p] == s[p] == SEP[0];
    if p > 0 { assert x[p - 1] == s[p - 1] == y[p - 1]; }
    if p + 1 < |x| {
      assert x[p + 1] == s[p + 1] == Join(rest, SEP)[0];
      JoinStart(rest);
    }
  }

  /** What is left of a field behind a cut is trimmed as well. */
  lemma TailTrimmed(y: string, n: nat, rest: seq<string>, u: string)
    requires n < |y| && Trimmed(y) && AllTrimmed(rest) && y[n + 1..] + u == Join(rest, SEP)
    ensures Trimmed(y[n + 1..])
  {
    var t := y[n + 1..];
    if t != "" {
      JoinStart(rest);
      assert t[0] == Join(rest, SEP)[0] && t[|t| - 1] == y[|y| - 1];
    }
  }

  /** Uncut fields are the only reading of their join into as many fields or more. */
  lemma {:induction false} UncutIsOnly(a: seq<string>, b: seq<string>)
    requires 1 <= |a| <= |b| && AllTrimmed(a) && AllTrimmed(b) && AllUncut(a)
    requires Join(a, SEP) == Join(b, SEP)
    ensures a == b
    decreases |a|
  {
    var x, y := a[0], b[0];
    if |a| == 1 {
      if |b| > 1 { LongerIsCut(x, y, "", b[1..]); }
    } else {
      var u, v := Join(a[1..], SEP), Join(b[1..], SEP);
      assert x + SEP + u == y + SEP + v;
      if |x| == |y| {
        SameHead(x, u, y, v);
        UncutIsOnly(a[1..], b[1..]);
        assert a == [x] + a[1..] && b == [y] + b[1..];
      } else if |x| > |y| {
        assert x + (SEP + u) == y + SEP + v;
        LongerIsCut(x, y, SEP + u, b[1..]);
      } else {
        ShiftHead(x, u, y, v);
        TailTrimmed(y, |x|, a[1..], SEP + v);
        var t := y[|x| + 1..];
        var b' := [t] + b[1..];
        assert b'[1..] == b[1..];
        UncutIsOnly(a[1..], b');
      }
    }
  }

  lemma SameHead(x: string, u: string, y: string, v: string)
    requires |x| == |y| && x + SEP + u == y + SEP + v
    ensures x == y && u == v
  {
    var s := x + SEP + u;
    assert x == s[..|x|] && y == s[..|y|] && u == s[|x| + 1..] && v == s[|y| + 1..];
  }

  lemma ShiftHead(x: string, u: string, y: string, v: string)
    requires |x| < |y| && x + SEP + u == y + SEP + v
    ensures y[|x| + 1..] + (SEP + v) == u
  {
    var s := x + SEP + u;
    assert s == y + (SEP + v);
    assert s[|x| + 1..] == u;
  }

  // Moving a cut: the same join, read into other fields.

  function Merge(g: seq<string>, m: nat): seq<string>
    requires m + 1 < |g|
  {
    g[..m] + [g[m] + SEP + g[m + 1]] + g[m + 2..]
  }

  lemma {:induction false} MergeJoin(g: seq<string>, m: nat)
    requires m + 1 < |g|
    ensures Join(Merge(g, m), SEP) == Join(g, SEP)
    decreases m
  {
    if m == 0 {
      assert Merge(g, 0) == [g[0] + SEP + g[1]] + g[2..];
      assert Merge(g, 0)[1..] == g[2..] && g[1..][1..] == g[2..];
      assert g[0] + SEP + (g[1] + SEP + Join(g[2..], SEP)) == g[0] + SEP + g[1] + SEP + Join(g[2..], SEP);
    } else {
      MergeJoin(g[1..], m - 1);
      assert Merge(g, m)[1..] == Merge(g[1..], m - 1);
    }
  }

  function Split(f: seq<string>, i: nat, p: nat): seq<string>
    requires i < |f| && p < |f[i]|
  {
    f[..i] + [f[i][..p], f[i][p + 1..]] + f[i + 1..]
  }

  /** Field i is ended at its cut p, and two other fields are glued by the separator instead. */
  function MoveCut(f: seq<string>, i: nat, p: nat): seq<string>
    requires |f| == 6 && i < 6 && p < |f[i]|
  {
    Merge(Split(f, i, p), if i == 1 then 2 else 1)
  }

  lemma SplitTrimmed(f: seq<string>, i: nat, p: nat)
    requires AllTrimmed(f) && i < |f| && p < |f[i]| && CutAt(f[i], p)
    ensures AllTrimmed(Split(f, i, p))
  {
    var g, l, r := Split(f, i, p), f[i][..p], f[i][p + 1..];
    assert Trimmed(l) && Trimmed(r);
    forall k | 0 <= k < |g| ensures Trimmed(g[k]) {
      assert g[k] == if k < i then f[k] else if k == i then l else if k == i + 1 then r else f[k - 1];
    }
  }

  lemma MergeTrimmed(g: seq<string>, m: nat)
    requires AllTrimmed(g) && m + 1 < |g|
    ensures AllTrimmed(Merge(g, m))
  {
    var x, y := g[m], g[m + 1];
    assert Trimmed(x) && Trimmed(y);
    assert Trimmed(x + SEP + y);
  }

  lemma MovedFields(f: seq<string>, i: nat, p: nat)
    requires |f| == 6 && i < 6 && p < |f[i]|
    ensures var b := MoveCut(f, i, p);
      && |b| == 6 && b != f
      && (i > 0 ==> b[0] == f[0])
      && (|f[4]| <= 1024 && |f[5]| <= 1024 ==> |b[4]| <= 1024 && |b[5]| <= 1024)
  {
    var b := MoveCut(f, i, p);
    assert if i <= 1 then |b[i]| < |f[i]| else |b[1]| > |f[1]|;
  }

  lemma MovedCut(f: seq<string>, i: nat, p: nat)
    requires |f| == 6 && AllTrimmed(f) && i < 6 && p < |f[i]| && CutAt(f[i], p)
    ensures var b := MoveCut(f, i, p);
      && |b| == 6 && AllTrimmed(b) && b != f && Join(b, SEP) == Join(f, SEP)
      && (i > 0 ==> b[0] == f[0])
      && (|f[4]| <= 1024 && |f[5]| <= 1024 ==> |b[4]| <= 1024 && |b[5]| <= 1024)
  {
    var g, m := Split(f, i, p), if i == 1 then 2 else 1;
    assert f[i] == g[i] + SEP + g[i + 1];
    assert Merge(g, i) == f;
    MergeJoin(g, i);
    MergeJoin(g, m);
    SplitTrimmed(f, i, p);
    MergeTrimmed(g, m);
    hide Merge, Split, Join, Trimmed, AllTrimmed;
    MovedFields(f, i, p);
  }

  function WithFields(rec: Record, f: seq<string>): Record
    requires |f| == 6
  {
    rec.(visitorId := f[0], ip := f[1], country := f[2], city := f[3], userAgent := f[4], referer := f[5])
  }

  lemma FieldsBack(rec: Record, f: seq<string>)
    requires |f| == 6 && AllTrimmed(f)
    ensures Fields(WithFields(rec, f)) == f
    ensures |f[4]| <= 1024 && |f[5]| <= 1024 ==> Fields(Normalise(WithFields(rec, f))) == f
  {
    forall i | 0 <= i < 6 ensures TrimSpace(f[i]) == f[i] { TrimFixed(f[i]); }
  }

  lemma FieldsTrimmed(rec: Record)
    ensures AllTrimmed(Fields(rec))
  {
    forall i | 0 <= i < 6 ensures Trimmed(Fields(rec)[i]) {
      hide TrimSpace;
    }
  }

  /** For any record: its key is shared by no other fields exactly when none of its own has a cut. */
  lemma KeyIsUnique(a: Record)
    ensures (forall b: Record :: Key(b) == Key(a) ==> Fields(b) == Fields(a)) <==> AllUncut(Fields(a))
  {
    FieldsTrimmed(a);
    if AllUncut(Fields(a)) {
      forall b: Record | Key(b) == Key(a) ensures Fields(b) == Fields(a) {
        FieldsTrimmed(b);
        UncutIsOnly(Fields(a), Fields(b));
      }
    } else {
      var i, p :| 0 <= i < 6 && 0 <= p < |Fields(a)[i]| && CutAt(Fields(a)[i], p);
      MovedCut(Fields(a), i, p);
      var b := WithFields(a, MoveCut(Fields(a), i, p));
      FieldsBack(a, MoveCut(Fields(a), i, p));
      assert Key(b) == Key(a) && Fields(b) != Fields(a);
    }
  }

  /** Records that track does not refuse. */
  predicate Accepts(rec0: Record) {
    ValidId(Normalise(rec0).visitorId) && ValidId(Normalise(rec0).sessionId)
  }

  /** 8 to 128 letters, digits, underscores and hyphens, by their codes. */
  predicate IdSpelled(id: string) {
    && 8 <= |id| <= 128
    && forall i :: 0 <= i < |id| ==>
         || 48 <= id[i] as int <= 57 || 65 <= id[i] as int <= 90 || 97 <= id[i] as int <= 122
         || id[i] as int == 95 || id[i] as int == 45
  }

  /** track refuses exactly the records whose trimmed visitor or session id is not spelled like that. */
  lemma AcceptsIs(rec0: Record)
    ensures Accepts(rec0) <==> IdSpelled(TrimSpace(rec0.visitorId)) && IdSpelled(TrimSpace(rec0.sessionId))
  {
    hide TrimSpace;
    assert '0' as int == 48 && '9' as int == 57 && 'A' as int == 65 && 'Z' as int == 90;
    assert 'a' as int == 97 && 'z' as int == 122 && '_' as int == 95 && '-' as int == 45;
  }

  lemma AcceptedFirst(a: Record)
    requires Accepts(a)
    ensures NoSep(Fields(Normalise(a))[0])
    ensures |Fields(Normalise(a))[4]| <= 1024 && |Fields(Normalise(a))[5]| <= 1024
  {
    TrimTwice(a.visitorId);
  }

  lemma AcceptedMove(a: Record, f: seq<string>)
    requires Accepts(a) && |f| == 6 && AllTrimmed(f) && f[0] == Fields(Normalise(a))[0]
    ensures Accepts(WithFields(a, f))
  {
    TrimTwice(a.visitorId);
    TrimFixed(f[0]);
  }

  /**
   * For a record track accepts, as track fingerprints it: no other accepted record with other fields
   * has its key exactly when none of its fields has a cut.
   */
  lemma AcceptedKeyIsUnique(a: Record)
    requires Accepts(a)
    ensures (forall b: Record :: Accepts(b) && Key(Normalise(b)) == Key(Normalise(a))
              ==> Fields(Normalise(b)) == Fields(Normalise(a)))
       <==> AllUncut(Fields(Normalise(a)))
  {
    var f := Fields(Normalise(a));
    FieldsTrimmed(Normalise(a));
    if AllUncut(f) {
      forall b: Record | Accepts(b) && Key(Normalise(b)) == Key(Normalise(a)) ensures Fields(Normalise(b)) == f {
        KeyIsUnique(Normalise(a));
      }
    } else {
      var i, p :| 0 <= i < 6 && 0 <= p < |f[i]| && CutAt(f[i], p);
      AcceptedFirst(a);
      MovedCut(f, i, p);
      var g := MoveCut(f, i, p);
      AcceptedMove(a, g);
      FieldsBack(a, g);
      var b := WithFields(a, g);
      assert Key(Normalise(b)) == Key(Normalise(a)) && Fields(Normalise(b)) != f;
    }
  }

  /** Two visitors that track accepts and cannot tell apart: the separator ends the city or starts the user agent. */
  lemma AcceptedCollide()
    ensures exists a: Record, b: Record ::
      && Accepts(a) && Accepts(b)
      && Key(Normalise(a)) == Key(Normalise(b)) && Fields(Normalise(a)) != Fields(Normalise(b))
  {
    var a := Record("visitor1", "session1", "", "", "", "", "", "x" + SEP, "", "");
    TrimFixed("visitor1");
    TrimFixed("session1");
    TrimFixed("x" + SEP);
    assert Accepts(a);
    assert CutAt(Fields(Normalise(a))[3], 1);
    AcceptedKeyIsUnique(a);
  }

  lemma TrimFixed(s: string)
    requires s != "" ==> !IsSpace(s[0]) && !IsSpace(s[|s| - 1])
    ensures TrimSpace(s) == s
  {
  }

  lemma TrimTwice(s: string)
    ensures TrimSpace(TrimSpace(s)) == TrimSpace(s)
  {
    TrimFixed(TrimSpace(s));
  }

  /** Cutting may leave a trailing space, but the key trims once more. */
  lemma CutTwice(s: string, n: nat)
    ensures TrimSpace(Truncate(TrimSpace(Truncate(TrimSpace(s), n)), n)) == TrimSpace(Truncate(TrimSpace(s), n))
  {
    var cut := Truncate(TrimSpace(s), n);
    assert |TrimSpace(cut)| <= |cut| <= n;
    TrimTwice(cut);
  }

  /** Cleaning a record again does not move it to another key. */
  lemma NormaliseTwiceSameKey(rec: Record)
    ensures Key(Normalise(Normalise(rec))) == Key(Normalise(rec))
  {
    TrimTwice(rec.visitorId);
    TrimTwice(rec.ip);
    TrimTwice(rec.country);
    TrimTwice(rec.city);
    CutTwice(rec.userAgent, 1024);
    CutTwice(rec.referer, 1024);
    assert Fields(Normalise(Normalise(rec))) == Fields(Normalise(rec));
  }
}
