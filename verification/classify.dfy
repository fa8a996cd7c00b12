/** The field classifier: `is_directive`, `is_instruction` and `has_label`. */
module Classify {
  import opened Options
  import opened Text
  import opened Fields

  /** Membership of a token in a keyword table, ignoring case. An absent or
      empty token is never a keyword. */
  function IsKeyword(table: set<string>, token: Option<string>): (r: bool)
    ensures r ==> Truthy(token)
  {
    Truthy(token) && Lower(token.value) in table
  }

  function IsDirective(p: Parser, token: Option<string>): bool {
    IsKeyword(p.directives, token)
  }

  function IsInstruction(p: Parser, token: Option<string>): bool {
    IsKeyword(p.instructions, token)
  }

  /** A capability table holds lower-case keywords only. */
  predicate LowerCaseTable(table: set<string>) {
    forall k :: k in table ==> Lower(k) == k
  }

  /** Against a lower-case table, a token is a keyword exactly when it is
      non-empty and equals some keyword of the table up to case. */
  lemma KeywordMatchesIgnoringCase(table: set<string>, token: Option<string>)
    requires LowerCaseTable(table)
    ensures IsKeyword(table, token) <==>
      Truthy(token) && exists k :: k in table && EqualIgnoringCase(token.value, k)
  {
    if Truthy(token) {
      var s := token.value;
      if Lower(s) in table {
        LowerIdempotent(s);
        LowerDecidesCase(s, Lower(s));
      }
      forall k | k in table && EqualIgnoringCase(s, k) ensures Lower(s) in table {
        LowerDecidesCase(s, k);
      }
    }
  }

  /** Classification does not depend on how the token is capitalised. */
  lemma KeywordIgnoresCase(table: set<string>, a: string, b: string)
    requires EqualIgnoringCase(a, b)
    ensures IsKeyword(table, Some(a)) == IsKeyword(table, Some(b))
  {
    LowerDecidesCase(a, b);
  }

  /** The Python values `has_label` puts into the label-directive membership
      test: a string, or a method object obtained by naming a method without
      calling it. */
  datatype PyValue = Str(s: string) | BoundMethod(receiver: string, name: string)

  /** `token.lower` written without the call parentheses. */
  function LowerAttribute(token: string): PyValue {
    BoundMethod(token, "lower")
  }

  /** Python's `v in table` for a set of strings: only a string can be equal
      to a member. */
  predicate PyIn(v: PyValue, table: set<string>) {
    v.Str? && v.s in table
  }

  /** `has_label` as written: field1 is a label unless it is absent or empty,
      is itself a keyword, or field2 is a directive that is not allowed beside
      a label. The last test compares the uncalled `field2.lower` against the
      table of such directives, so it never succeeds, and every directive in
      field2 rules the label out. */
  function HasLabel(p: Parser, t: Tokens): (r: bool)
    ensures r <==>
      Truthy(t.field1) && !IsDirective(p, t.field1) && !IsInstruction(p, t.field1) &&
      !IsDirective(p, t.field2)
  {
    Truthy(t.field1) &&
    !(IsDirective(p, t.field1) || IsInstruction(p, t.field1) ||
      (IsDirective(p, t.field2) && !PyIn(LowerAttribute(t.field2.value), p.labelDirectives)))
  }

  /** The table of directives allowed beside a label has no effect. */
  lemma HasLabelIgnoresLabelDirectives(p: Parser, table: set<string>, t: Tokens)
    ensures HasLabel(p.(labelDirectives := table), t) == HasLabel(p, t)
  {
  }
}
