/**
 The libraries the rule service leans on, gathered in one value: encoding/json, cel-go, SHA-256, and the
 database column that stores a definition.  Every field is a deterministic function; nothing else is known
 about it except what `Lawful` says, and a theorem that needs one of those laws says so in its `requires`.
 Go strings are byte strings here, so `|s|` is Go's `len(s)`.
 */
module Platform {
  import opened Wrappers

  type Facts = string

  datatype DefinitionRule = DefinitionRule(name: string, condition: string, result: string)

  datatype Definition = Definition(rules: seq<DefinitionRule>, defaultResult: string)

  /** What two calls of the strict decoder find in a text. */
  datatype Decoded = Malformed | Trailing | Single(definition: Definition)

  /** How far one condition gets through the CEL compiler. */
  datatype ConditionCheck = Usable | BadExpression | NotBoolean | BadProgram

  /** What running a compiled condition on some facts yields. */
  datatype Verdict = True | False | NotABool | Fault

  datatype Platform = Platform(
    decode: string -> Decoded,
    marshal: Definition -> Option<string>,
    compact: string -> string,
    isObject: string -> bool,
    canonical: string -> string,
    trim: string -> string,
    environment: bool,
    check: string -> ConditionCheck,
    run: (string, Facts) -> Verdict,
    facts: string -> Option<Facts>,
    digest: string -> string,
    column: string -> Option<string>)

  /** A raw result survives re-encoding only in compacted form. */
  function Compacted(w: Platform, d: Definition): (r: Definition)
    ensures |r.rules| == |d.rules|
  {
    Definition(
      seq(|d.rules|, i requires 0 <= i < |d.rules| =>
        DefinitionRule(d.rules[i].name, d.rules[i].condition, w.compact(d.rules[i].result))),
      w.compact(d.defaultResult))
  }

  ghost predicate ObjectResults(w: Platform, d: Definition) {
    && w.isObject(d.defaultResult)
    && forall i :: 0 <= i < |d.rules| ==> w.isObject(d.rules[i].result)
  }

  /** Writing a decoded definition out and reading it back loses only layout. */
  ghost predicate Reencodes(w: Platform, d: Definition) {
    && w.marshal(d).Some?
    && w.decode(w.marshal(d).value) == Single(Compacted(w, d))
    && w.marshal(Compacted(w, d)) == w.marshal(d)
  }

  /**
   The laws assumed of the libraries.  The first is the no-collision assumption on SHA-256; the others are
   what encoding/json does with valid input.  Nothing is assumed of the database column, which may refuse a text.
   */
  ghost predicate Lawful(w: Platform) {
    && (forall a, b :: w.digest(a) == w.digest(b) ==> a == b)
    && w.decode("") == Malformed
    && (forall r :: w.isObject(r) ==> w.isObject(w.compact(r)) && w.canonical(w.compact(r)) == w.canonical(r))
    && (forall raw :: w.decode(raw).Single? && ObjectResults(w, w.decode(raw).definition)
                      ==> Reencodes(w, w.decode(raw).definition))
  }
}
