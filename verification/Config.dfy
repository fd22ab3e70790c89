/** mesi/config.go: the depth and time budgets handed down an include chain. */
module Config {
  import opened Options

  /** The fields of `EsiParserConfig` that processing changes or branches on. Durations may be
      any integer; only positive ones are a budget. */
  datatype Config = Config(maxDepth: nat, timeout: int, parseOnHeader: bool, marker: string)

  /** A decoded include tag. `timeout` and `maxDepth` are None when absent or rejected. */
  datatype Directive = Directive(
    src: string, alt: string, timeout: Option<int>, maxDepth: Option<nat>,
    fetchMode: string, onError: string, content: string)

  function Max(a: int, b: int): int {
    if a >= b then a else b
  }

  predicate CanGoDeeper(c: Config, elapsed: int) {
    c.maxDepth >= 1 && c.timeout > elapsed
  }

  predicate ParseOnly(c: Config) {
    c.maxDepth < 1
  }

  function DecreaseMaxDepth(c: Config): Config {
    if c.maxDepth > 0 then c.(maxDepth := c.maxDepth - 1) else c
  }

  function WithElapsedTime(c: Config, elapsed: int): Config {
    if c.timeout - elapsed > 0 then c.(timeout := c.timeout - elapsed) else c.(timeout := 0)
  }

  function OverrideConfig(c: Config, d: Directive): Config {
    var c1 := match d.timeout
      case None => c
      case Some(limit) => if c.timeout > limit then c.(timeout := limit) else c;
    match d.maxDepth
    case None => c1
    case Some(depth) => if c1.maxDepth > depth + 1 then c1.(maxDepth := depth + 1) else c1
  }

  /** The configuration an include is fetched with. */
  function IncludeConfig(c: Config, d: Directive, elapsed: int): Config {
    WithElapsedTime(OverrideConfig(c, d), elapsed)
  }

  /** The configuration the fetched page is processed with. */
  function NestedConfig(c: Config, elapsed: int): Config {
    WithElapsedTime(DecreaseMaxDepth(c), elapsed)
  }

  /** One include on the way down: its tag and the two clock readings that charge the budget. */
  datatype Hop = Hop(tag: Directive, atFetch: nat, atParse: nat)

  function Descend(c: Config, hops: seq<Hop>): Config
    decreases |hops|
  {
    if hops == [] then c
    else Descend(NestedConfig(IncludeConfig(c, hops[0].tag, hops[0].atFetch), hops[0].atParse), hops[1..])
  }

  function Spent(hops: seq<Hop>): nat {
    if hops == [] then 0 else hops[0].atFetch + hops[0].atParse + Spent(hops[1..])
  }

  /** Down any chain of includes, whatever the tags ask for, the time left is what is left of the first
      budget after every charge, or less, and never negative; the depth left shrinks by one a hop. */
  lemma {:induction false} BudgetsOnlyTighten(c: Config, hops: seq<Hop>)
    requires |hops| > 0
    ensures 0 <= Descend(c, hops).timeout <= Max(0, c.timeout - Spent(hops))
    ensures Descend(c, hops).maxDepth <= Max(0, c.maxDepth - |hops|)
    ensures forall i :: 0 <= i < |hops| && hops[i].tag.maxDepth.Some? ==>
              Descend(c, hops).maxDepth <= Max(0, hops[i].tag.maxDepth.value - (|hops| - 1 - i))
    decreases |hops|
  {
    var next := NestedConfig(IncludeConfig(c, hops[0].tag, hops[0].atFetch), hops[0].atParse);
    var rest := hops[1..];
    if rest == [] {
      assert Descend(next, rest) == next;
    } else {
      BudgetsOnlyTighten(next, rest);
      assert forall i :: 0 < i < |hops| ==> hops[i] == rest[i - 1];
    }
  }
}
