/** The literal reformatter: the `re_literal` pattern and `fix_literals`,
    which turns the MPASM form `B'0101'` into the ASPIC form `0101B` and the
    character form `A'x'` into `"x"`. */
module Literals {
  import opened Options
  import opened Text
  import opened Fields

  /** `[\w\.]`: the radix or character marker in front of the quotes. */
  predicate IsKindChar(c: char) {
    IsWordChar(c) || c == '.'
  }

  /** `(\"|')`: either quote, chosen independently at each end. */
  predicate IsQuote(c: char) {
    c == '"' || c == '\''
  }

  /** `[\w ]`: a character of the quoted payload. */
  predicate IsPayloadChar(c: char) {
    IsWordChar(c) || c == ' '
  }

  /** The marker that makes a literal a character or string constant. */
  const CharKind := 'A'

  /** The two groups of a literal match: `type` and `number`. */
  datatype Literal = Literal(kind: char, payload: string)

  /** Declarative reading of `^(?P<type>[\w\.])(\"|')(?P<number>[\w ]+)(\"|')`:
      `s` opens with `kind`, a quote, the non-empty `payload` and a quote.
      Whatever follows the closing quote is not part of the match. */
  predicate IsLiteralPrefix(s: string, kind: char, payload: string) {
    && |payload| >= 1
    && |s| >= |payload| + 3
    && s[0] == kind && IsKindChar(kind)
    && IsQuote(s[1])
    && s[2..2 + |payload|] == payload
    && (forall k :: 0 <= k < |payload| ==> IsPayloadChar(payload[k]))
    && IsQuote(s[2 + |payload|])
  }

  /** Length of the longest run of payload characters that `s` opens with:
      where the greedy `[\w ]+` stops. */
  function PayloadRun(s: string): (n: nat)
    ensures n <= |s|
    ensures forall k :: 0 <= k < n ==> IsPayloadChar(s[k])
    ensures n == |s| || !IsPayloadChar(s[n])
  {
    if |s| == 0 || !IsPayloadChar(s[0]) then 0 else 1 + PayloadRun(s[1..])
  }

  /** A quote is never a payload character, so the greedy run ends exactly
      at the closing quote of any literal prefix. */
  lemma PayloadRunOfLiteral(s: string, kind: char, payload: string)
    requires IsLiteralPrefix(s, kind, payload)
    ensures PayloadRun(s[2..]) == |payload|
  {
    var t := s[2..];
    assert forall k :: 0 <= k < |payload| ==> t[k] == payload[k];
    assert t[|payload|] == s[2 + |payload|];
  }

  /** `re_literal.search(s)`. Backtracking cannot help the pattern: shortening
      the greedy payload run leaves a payload character, never a quote, in
      front of the closing-quote position, so the match is the one below. */
  function MatchLiteral(s: string): (m: Option<Literal>)
    ensures m.Some? ==> IsLiteralPrefix(s, m.value.kind, m.value.payload)
    ensures forall kind, payload ::
      IsLiteralPrefix(s, kind, payload) ==> m == Some(Literal(kind, payload))
  {
    if |s| < 2 || !IsKindChar(s[0]) || !IsQuote(s[1]) then None
    else
      var n := PayloadRun(s[2..]);
      assert forall kind, payload :: IsLiteralPrefix(s, kind, payload) ==> |payload| == n by {
        forall kind, payload | IsLiteralPrefix(s, kind, payload) ensures |payload| == n {
          PayloadRunOfLiteral(s, kind, payload);
        }
      }
      if n >= 1 && 2 + n < |s| && IsQuote(s[2 + n]) then
        assert s[2..][..n] == s[2..2 + n];
        Some(Literal(s[0], s[2..2 + n]))
      else None
  }

  /** The ASPIC spelling of a matched literal. */
  function Convert(lit: Literal): string {
    if lit.kind == CharKind then "\"" + lit.payload + "\"" else lit.payload + [lit.kind]
  }

  /** `fix_literals`: an absent or empty field gives `None`; a field opening
      with a literal is replaced by that literal's ASPIC spelling (anything
      after the closing quote is dropped); any other field comes back as is. */
  function FixLiterals(field: Option<string>): (r: Option<string>)
    ensures !Truthy(field) ==> r == None
    ensures forall payload :: Truthy(field) && IsLiteralPrefix(field.value, CharKind, payload) ==>
      r == Some("\"" + payload + "\"")
    ensures forall kind, payload ::
      Truthy(field) && kind != CharKind && IsLiteralPrefix(field.value, kind, payload) ==>
      r == Some(payload + [kind])
    ensures Truthy(field) && (forall kind, payload :: !IsLiteralPrefix(field.value, kind, payload)) ==>
      r == field
  {
    if !Truthy(field) then None
    else
      match MatchLiteral(field.value)
      case Some(lit) => Some(Convert(lit))
      case None => field
  }

  /** A converted literal never matches the pattern again: the string form
      opens with `"`, which is no marker, and in the suffix form the second
      character is a payload or marker character, never a quote. */
  lemma ConvertedNeverMatches(s: string)
    requires MatchLiteral(s).Some?
    ensures MatchLiteral(Convert(MatchLiteral(s).value)) == None
  {
    var lit := MatchLiteral(s).value;
    var c := Convert(lit);
    assert lit.payload[0] == s[2];
    if lit.kind != CharKind {
      assert c[1] == if |lit.payload| >= 2 then lit.payload[1] else lit.kind;
      assert !IsQuote(c[1]);
    }
  }

  /** `fix_literals` is idempotent: a second pass changes nothing. */
  lemma FixLiteralsIdempotent(field: Option<string>)
    ensures FixLiterals(FixLiterals(field)) == FixLiterals(field)
  {
    if Truthy(field) && MatchLiteral(field.value).Some? {
      ConvertedNeverMatches(field.value);
    }
  }
}
