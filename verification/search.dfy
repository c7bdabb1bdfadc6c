/** The search box of scripts/search.js: compiling the typed pattern,
    filtering the transactions by it and highlighting matches.

    The JavaScript regular-expression engine itself is not modelled; it is a
    parameter (`Engine`) that the operations consult, so every property below
    holds whatever the engine does. */
module Search {
  import opened Wrappers
  import opened Chars
  import opened State
  import Seqs

  /** The regular-expression engine. `compile(source, ignoreCase)` is
      `new RegExp(source, ignoreCase ? "i" : "")`, `None` when it throws a
      SyntaxError; `test(p, text)` is `p.test(text)` on a non-global pattern;
      `markAll(p, text)` wraps every match of `p` in `text` in `<mark>` tags. */
  datatype Engine<!P> = Engine(
    compile: (string, bool) -> Option<P>,
    test: (P, string) -> bool,
    markAll: (P, string) -> string)

  /** `compileRegex`: no pattern for blank input or an invalid source. */
  function CompileRegex<P>(engine: Engine<P>, input: string, ignoreCase: bool): (r: Option<P>)
    ensures AllSpace(input) ==> r == None
    ensures !AllSpace(input) ==> r == engine.compile(input, ignoreCase)
  {
    MissingOrBlankIffAllSpace(input);
    if MissingOrBlank(input) then None else engine.compile(input, ignoreCase)
  }

  /** A transaction is found when the pattern matches its description or its
      category. */
  predicate Matches<P>(engine: Engine<P>, p: P, t: Txn) {
    engine.test(p, t.description) || engine.test(p, t.category)
  }

  function MatchesWith<P>(engine: Engine<P>, p: P): Txn -> bool {
    (t: Txn) => Matches(engine, p, t)
  }

  /** `searchTransactions`: the list unchanged for blank input or an invalid
      pattern; otherwise the transactions the pattern finds, in list order.
      The case-insensitive flag is set exactly when `caseSensitive` is off. */
  function SearchTransactions<P>(engine: Engine<P>, txns: seq<Txn>, input: string, caseSensitive: bool): (r: seq<Txn>)
    ensures AllSpace(input) ==> r == txns
    ensures !AllSpace(input) && engine.compile(input, !caseSensitive).None? ==> r == txns
    ensures !AllSpace(input) && engine.compile(input, !caseSensitive).Some? ==>
      var p := engine.compile(input, !caseSensitive).value;
      && Seqs.IsSubsequence(r, txns)
      && (forall i | 0 <= i < |r| :: Matches(engine, p, r[i]))
      && (forall i | 0 <= i < |txns| :: Matches(engine, p, txns[i]) ==> txns[i] in r)
  {
    MissingOrBlankIffAllSpace(input);
    if MissingOrBlank(input) then txns
    else match CompileRegex(engine, input, !caseSensitive)
      case None => txns
      case Some(p) => Seqs.Filter(txns, MatchesWith(engine, p))
  }

  /** Searching a concatenation searches each part: the result is decided
      transaction by transaction, never by position. */
  lemma {:induction false} SearchAppend<P>(engine: Engine<P>, xs: seq<Txn>, ys: seq<Txn>, input: string, caseSensitive: bool)
    ensures SearchTransactions(engine, xs + ys, input, caseSensitive)
         == SearchTransactions(engine, xs, input, caseSensitive) + SearchTransactions(engine, ys, input, caseSensitive)
  {
    MissingOrBlankIffAllSpace(input);
    if !MissingOrBlank(input) {
      match CompileRegex(engine, input, !caseSensitive)
      case None =>
      case Some(p) => Seqs.FilterAppend(xs, ys, MatchesWith(engine, p));
    }
  }

  /** Searching the search result again with the same input finds it all. */
  lemma {:induction false} SearchIdempotent<P>(engine: Engine<P>, txns: seq<Txn>, input: string, caseSensitive: bool)
    ensures var once := SearchTransactions(engine, txns, input, caseSensitive);
      SearchTransactions(engine, once, input, caseSensitive) == once
  {
  }

  /** `highlight`: text comes back as it was when there is no pattern or no
      text; otherwise every match is marked. */
  function Highlight<P>(engine: Engine<P>, text: string, regex: Option<P>): (r: string)
    ensures regex.None? || text == [] ==> r == text
    ensures regex.Some? && text != [] ==> r == engine.markAll(regex.value, text)
  {
    match regex
    case None => text
    case Some(p) => if text == [] then text else engine.markAll(p, text)
  }
}
