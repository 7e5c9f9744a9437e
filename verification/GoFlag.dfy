/** The documented command-line syntax of Go's `flag` package, as the reference
    against which the repository's own argument parsers are judged. */
module GoFlag {
  import opened Text

  /** Boolean flags take no argument; a list flag is the repository's
      `stringList`, which trims a value and refuses a blank one. */
  datatype Kind = Boolean | PlainText | TextList | Other

  /** The flags a FlagSet has registered. */
  type Registry = string -> Option<Kind>

  /** One successful flag: its name and the text its Set method received. */
  datatype Assignment = Assignment(name: string, text: string)

  datatype Failure =
    | HelpRequested
    | Undefined(name: string)
    | NeedsArgument(name: string)
    | BadSyntax(token: string)
    | InvalidValue(name: string, text: string)

  datatype Outcome =
    | Parsed(assignments: seq<Assignment>, operands: seq<string>)
    | Failed(failure: Failure)

  /** A token is an operand, the terminator, a flag, or malformed. */
  datatype Token = Operand | Terminator | Flag(name: string, text: Option<string>) | Malformed

  function Classify(s: string): Token {
    if |s| < 2 || s[0] != '-' then Operand
    else if s == "--" then Terminator
    else
      var body := if s[1] == '-' then s[2..] else s[1..];
      if body[0] == '-' || body[0] == '=' then Malformed
      else
        var cut := FirstEquals(body, 1);
        if cut == |body| then Flag(body, None) else Flag(body[..cut], Some(body[cut + 1..]))
  }

  /** Whether a flag's Set accepts a text; `other` decides for numbers and
      durations, about which nothing is assumed. */
  predicate Accepts(kind: Kind, name: string, text: string, other: (string, string) -> bool) {
    match kind
    case Boolean => ParseBool(text).Some?
    case PlainText => true
    case TextList => TrimSpace(text) != ""
    case Other => other(name, text)
  }

  function Prepend(a: Assignment, rest: Outcome): Outcome {
    match rest
    case Parsed(assignments, operands) => Parsed([a] + assignments, operands)
    case Failed(_) => rest
  }

  /** FlagSet.Parse under ContinueOnError. */
  function Parse(registry: Registry, other: (string, string) -> bool, args: seq<string>): Outcome
    decreases |args|
  {
    if args == [] then Parsed([], [])
    else
      match Classify(args[0])
      case Operand => Parsed([], args)
      case Terminator => Parsed([], args[1..])
      case Malformed => Failed(BadSyntax(args[0]))
      case Flag(name, text) =>
        if registry(name).None? then
          Failed(if name == "help" || name == "h" then HelpRequested else Undefined(name))
        else if registry(name) == Some(Boolean) then
          var value := if text.Some? then text.value else "true";
          if !Accepts(Boolean, name, value, other) then Failed(InvalidValue(name, value))
          else Prepend(Assignment(name, value), Parse(registry, other, args[1..]))
        else if text.None? && |args| == 1 then Failed(NeedsArgument(name))
        else
          var value := if text.Some? then text.value else args[1];
          if !Accepts(registry(name).value, name, value, other) then Failed(InvalidValue(name, value))
          else Prepend(Assignment(name, value), Parse(registry, other, if text.Some? then args[1..] else args[2..]))
  }

  /** The value of a boolean flag after a parse: its last assignment, or None. */
  function LastBool(assignments: seq<Assignment>, name: string): Option<bool>
    decreases |assignments|
  {
    if assignments == [] then None
    else
      var later := LastBool(assignments[1..], name);
      if later.Some? then later
      else if assignments[0].name == name then ParseBool(assignments[0].text)
      else None
  }
}
