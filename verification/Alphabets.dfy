/** Symbol tables of the text codecs: characters to indices and back. */
module Alphabets {
  import opened Wrappers

  ghost predicate Distinct(alphabet: string) {
    forall i, j :: 0 <= i < j < |alphabet| ==> alphabet[i] != alphabet[j]
  }

  /** Position of `c` in the alphabet; `None` is the lookup error of a foreign character. */
  function IndexIn(alphabet: string, c: char): (r: Option<nat>)
    ensures r.Some? ==> r.value < |alphabet| && alphabet[r.value] == c
    ensures r.None? ==> c !in alphabet
  {
    IndexFrom(alphabet, c, 0)
  }

  function IndexFrom(alphabet: string, c: char, i: nat): (r: Option<nat>)
    requires i <= |alphabet|
    ensures r.Some? ==> i <= r.value < |alphabet| && alphabet[r.value] == c
    ensures r.None? ==> c !in alphabet[i..]
    decreases |alphabet| - i
  {
    if i == |alphabet| then None
    else if alphabet[i] == c then Some(i)
    else IndexFrom(alphabet, c, i + 1)
  }

  ghost predicate Over(alphabet: string, s: string) {
    forall i :: 0 <= i < |s| ==> IndexIn(alphabet, s[i]).Some?
  }

  function Indices(alphabet: string, s: string): (ds: seq<nat>)
    requires Over(alphabet, s)
    ensures |ds| == |s|
    ensures forall i :: 0 <= i < |ds| ==> ds[i] < |alphabet| && IndexIn(alphabet, s[i]) == Some(ds[i])
  {
    seq(|s|, i requires 0 <= i < |s| => IndexIn(alphabet, s[i]).value)
  }

  function Symbols(alphabet: string, ds: seq<nat>): (s: string)
    requires forall i :: 0 <= i < |ds| ==> ds[i] < |alphabet|
    ensures |s| == |ds|
    ensures forall i :: 0 <= i < |s| ==> s[i] == alphabet[ds[i]]
  {
    seq(|ds|, i requires 0 <= i < |ds| => alphabet[ds[i]])
  }

  lemma SymbolsOfIndices(alphabet: string, s: string)
    requires Over(alphabet, s)
    ensures Symbols(alphabet, Indices(alphabet, s)) == s
  {}

  lemma IndicesOfSymbols(alphabet: string, ds: seq<nat>)
    requires Distinct(alphabet)
    requires forall i :: 0 <= i < |ds| ==> ds[i] < |alphabet|
    ensures Over(alphabet, Symbols(alphabet, ds))
    ensures Indices(alphabet, Symbols(alphabet, ds)) == ds
  {}

  lemma IndicesExtend(alphabet: string, s: string, k: nat)
    requires k < |s| && Over(alphabet, s[..k]) && IndexIn(alphabet, s[k]).Some?
    ensures Over(alphabet, s[..k + 1])
    ensures Indices(alphabet, s[..k + 1]) == Indices(alphabet, s[..k]) + [IndexIn(alphabet, s[k]).value]
  {
    assert s[..k + 1] == s[..k] + [s[k]];
  }
}
