/** The string operations of the source, on byte strings with ASCII letters and white space. */
module Text {

  predicate IsSpace(c: char) {
    c == ' ' || 9 <= c as int <= 13
  }

  function TrimSpace(s: string): (r: string)
    ensures |r| <= |s|
    ensures r != [] ==> !IsSpace(r[0]) && !IsSpace(r[|r| - 1])
    ensures forall c :: c in r ==> c in s
  {
    if s == [] then s
    else if IsSpace(s[0]) then TrimSpace(s[1..])
    else if IsSpace(s[|s| - 1]) then TrimSpace(s[..|s| - 1])
    else s
  }

  /** s[:n] when s is longer than n. */
  function Truncate(s: string, n: nat): (r: string)
    ensures r <= s
    ensures |r| <= n && (|r| < n ==> r == s)
  {
    if |s| > n then s[..n] else s
  }

  function LowerChar(c: char): char {
    if 'A' <= c <= 'Z' then (c as int + 32) as char else c
  }

  function ToLower(s: string): string {
    seq(|s|, i requires 0 <= i < |s| => LowerChar(s[i]))
  }

  function UpperChar(c: char): char {
    if 'a' <= c <= 'z' then (c as int - 32) as char else c
  }

  function ToUpper(s: string): string {
    seq(|s|, i requires 0 <= i < |s| => UpperChar(s[i]))
  }

  function Join(parts: seq<string>, sep: string): string {
    if parts == [] then ""
    else if |parts| == 1 then parts[0]
    else parts[0] + sep + Join(parts[1..], sep)
  }

  // ----- What these functions compute -----

  /** Tab, line feed, vertical tab, form feed, carriage return and space. */
  lemma SpaceIs(c: char)
    ensures IsSpace(c) <==> c in {'\t', '\n', '\U{0B}', '\U{0C}', '\r', ' '}
  {
    assert '\t' as int == 9 && '\n' as int == 10 && '\r' as int == 13;
  }

  /** Trimming takes white space off both ends, and nothing else. */
  lemma {:induction false} TrimIs(s: string) returns (i: nat, j: nat)
    ensures i <= j <= |s| && TrimSpace(s) == s[i..j]
    ensures forall k :: 0 <= k < i || j <= k < |s| ==> IsSpace(s[k])
    decreases |s|
  {
    if s == "" {
      i, j := 0, 0;
    } else if IsSpace(s[0]) {
      var a, b := TrimIs(s[1..]);
      i, j := a + 1, b + 1;
      forall k | 0 <= k < i || j <= k < |s| ensures IsSpace(s[k]) {
        if k > 0 { assert s[k] == s[1..][k - 1]; }
      }
    } else if IsSpace(s[|s| - 1]) {
      var front := s[..|s| - 1];
      i, j := TrimIs(front);
      forall k | 0 <= k < i || j <= k < |s| ensures IsSpace(s[k]) {
        if k < |front| { assert s[k] == front[k]; }
      }
    } else {
      i, j := 0, |s|;
    }
  }

  /** Joining, one part after the other. */
  lemma {:induction false} JoinIs(parts: seq<string>, last: string, sep: string)
    ensures Join([], sep) == ""
    ensures Join(parts + [last], sep) == if parts == [] then last else Join(parts, sep) + sep + last
    decreases |parts|
  {
    if parts == [] {
      assert parts + [last] == [last];
    } else {
      JoinIs(parts[1..], last, sep);
      var all := parts + [last];
      assert all[1..] == parts[1..] + [last];
      if |parts| > 1 {
        var rest := Join(parts[1..], sep);
        assert parts[0] + sep + (rest + sep + last) == parts[0] + sep + rest + sep + last;
      }
    }
  }

  /** The letters A to Z have codes 65 to 90, the letters a to z are 32 codes above; nothing else changes. */
  lemma CaseIs(s: string, i: nat)
    requires i < |s|
    ensures |ToLower(s)| == |ToUpper(s)| == |s|
    ensures ToLower(s)[i] as int == if 65 <= s[i] as int <= 90 then s[i] as int + 32 else s[i] as int
    ensures ToUpper(s)[i] as int == if 97 <= s[i] as int <= 122 then s[i] as int - 32 else s[i] as int
  {
  }
}
