/** redactHeaders: credentials never reach the hits table. */
module Redaction {
  import opened Text

  const REDACTED := "[redacted]"

  predicate Sensitive(name: string) {
    ToLower(name) in {"authorization", "proxy-authorization", "cookie", "set-cookie", "x-api-key", "x-auth-token"}
  }

  // ----- The names, letter by letter -----

  /** name is the literal, but for letters A to Z where the literal has a to z. */
  predicate Spells(name: string, literal: string) {
    && |name| == |literal|
    && forall i :: 0 <= i < |name| ==>
         name[i] == literal[i] || (65 <= name[i] as int <= 90 && literal[i] as int == name[i] as int + 32)
  }

  predicate Secret(name: string) {
    || Spells(name, "authorization")
    || Spells(name, "proxy-authorization")
    || Spells(name, "cookie")
    || Spells(name, "set-cookie")
    || Spells(name, "x-api-key")
    || Spells(name, "x-auth-token")
  }

  predicate NoUpper(literal: string) {
    forall i :: 0 <= i < |literal| ==> !(65 <= literal[i] as int <= 90)
  }

  lemma LowerSpells(name: string, literal: string)
    requires NoUpper(literal)
    ensures ToLower(name) == literal <==> Spells(name, literal)
  {
    if ToLower(name) == literal {
      forall i | 0 <= i < |name|
        ensures name[i] == literal[i] || (65 <= name[i] as int <= 90 && literal[i] as int == name[i] as int + 32)
      {
        assert ToLower(name)[i] == literal[i];
      }
    }
    if Spells(name, literal) {
      forall i | 0 <= i < |name| ensures ToLower(name)[i] == literal[i] {
        assert LowerChar(name[i]) == literal[i];
      }
    }
  }

  /** The names on the list are those that spell one of six literals, in whatever case. */
  lemma SensitiveIsSecret(name: string)
    ensures Sensitive(name) <==> Secret(name)
  {
    LowerSpells(name, "authorization");
    LowerSpells(name, "proxy-authorization");
    LowerSpells(name, "cookie");
    LowerSpells(name, "set-cookie");
    LowerSpells(name, "x-api-key");
    LowerSpells(name, "x-auth-token");
  }

  // ----- Redacting -----

  function Redact(headers: map<string, string>): map<string, string> {
    map k | k in headers :: if Sensitive(k) then REDACTED else headers[k]
  }

  /** No credential is left. */
  ghost predicate Clean(headers: map<string, string>) {
    forall k :: k in headers && Secret(k) ==> headers[k] == "[redacted]"
  }

  lemma RedactIs(headers: map<string, string>)
    ensures Redact(headers).Keys == headers.Keys
    ensures forall k :: k in headers ==> Redact(headers)[k] == if Secret(k) then "[redacted]" else headers[k]
    ensures Clean(Redact(headers))
  {
    hide Sensitive, Secret;
    forall k | k in headers ensures Redact(headers)[k] == if Secret(k) then "[redacted]" else headers[k] {
      SensitiveIsSecret(k);
    }
  }

  method RedactHeaders(headers: map<string, string>) returns (out: map<string, string>)
    ensures out.Keys == headers.Keys
    ensures forall k :: k in headers ==> out[k] == if Secret(k) then "[redacted]" else headers[k]
    ensures Clean(out)
    ensures out == Redact(headers)
  {
    out := map[];
    var todo := headers.Keys;
    while todo != {}
      invariant todo <= headers.Keys
      invariant out.Keys == headers.Keys - todo
      invariant forall k :: k in out ==> out[k] == if Sensitive(k) then REDACTED else headers[k]
      decreases todo
    {
      var k :| k in todo;
      out := out[k := if Sensitive(k) then REDACTED else headers[k]];
      todo := todo - {k};
    }
    RedactIs(headers);
    hide Sensitive, Secret;
  }

  /** The same character, or one the letter of the other's case. */
  predicate SameLetter(a: char, b: char) {
    || a == b
    || (65 <= a as int <= 90 && b as int == a as int + 32)
    || (65 <= b as int <= 90 && a as int == b as int + 32)
  }

  /** Letter case does not hide a name from the list. */
  lemma CaseDoesNotMatter(a: string, b: string)
    requires |a| == |b| && forall i :: 0 <= i < |a| ==> SameLetter(a[i], b[i])
    ensures Sensitive(a) == Sensitive(b)
  {
    assert ToLower(a) == ToLower(b);
  }
}
