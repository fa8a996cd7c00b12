/** The data model of one line: the four optional field slots plus the
    indentation count, and the configuration a `Parser` is built with. */
module Fields {
  import opened Options

  /** Python truthiness of an optional field: present and non-empty. */
  predicate Truthy(f: Option<string>) {
    f.Some? && |f.value| > 0
  }

  /** The named groups a successful match of the line pattern yields. */
  datatype Groups = Groups(
    field1: Option<string>,
    field2: Option<string>,
    field3: Option<string>,
    comment: Option<string>)

  /** The per-line token dictionary: `field1`..`field3`, `comment`, `indent`. */
  datatype Tokens = Tokens(
    field1: Option<string>,
    field2: Option<string>,
    field3: Option<string>,
    comment: Option<string>,
    indent: nat)

  /** The record of a blank line: every slot absent, no indentation. */
  const Blank := Tokens(None, None, None, None, 0)

  /** A parser: the directive table, the table of directives allowed beside a
      label, the instruction table of the selected device, and the line
      pattern, whose matching is not modelled and is given as a function from
      the line to its groups (`None` when the pattern does not match). */
  datatype Parser = Parser(
    directives: set<string>,
    labelDirectives: set<string>,
    instructions: set<string>,
    lineRegex: string -> Option<Groups>)
}
