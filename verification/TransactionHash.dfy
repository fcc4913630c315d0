/** The form in which src/wallet_agent/api/app.py stores and compares transaction hashes, on ASCII text. */
module TransactionHash {
  predicate Space(c: char) {
    c == ' ' || '\t' <= c <= '\r' || '\U{1C}' <= c <= '\U{1F}'
  }

  function LowerChar(c: char): char {
    if 'A' <= c <= 'Z' then (c as int + 32) as char else c
  }

  function Lower(s: string): (r: string)
    ensures |r| == |s| && forall i :: 0 <= i < |s| ==> r[i] == LowerChar(s[i])
  {
    seq(|s|, i requires 0 <= i < |s| => LowerChar(s[i]))
  }

  function Strip(s: string): (r: string)
    ensures r != [] ==> !Space(r[0]) && !Space(r[|r| - 1])
    ensures s != [] && !Space(s[0]) && !Space(s[|s| - 1]) ==> r == s
    decreases |s|
  {
    if s == [] then s
    else if Space(s[0]) then Strip(s[1..])
    else if Space(s[|s| - 1]) then Strip(s[..|s| - 1])
    else s
  }

  function Normalize(hash: string): string {
    var value := Strip(hash);
    if |value| >= 2 && Lower(value[..2]) == "0x" then "0x" + Lower(value[2..]) else Lower(value)
  }

  predicate Normal(hash: string) {
    Normalize(hash) == hash
  }

  /** The branch for a `0x` prefix makes no difference: the form is the trimmed text in lower case. */
  lemma NormalizeIsLower(hash: string)
    ensures Normalize(hash) == Lower(Strip(hash))
  {
    var value := Strip(hash);
    if |value| >= 2 {
      assert Lower(value) == Lower(value[..2]) + Lower(value[2..]);
    }
  }

  lemma LowerTwice(s: string)
    ensures Lower(Lower(s)) == Lower(s)
  {
    forall i | 0 <= i < |s| ensures LowerChar(LowerChar(s[i])) == LowerChar(s[i]) {
    }
  }

  lemma StripKept(s: string)
    requires s != [] ==> !Space(s[0]) && !Space(s[|s| - 1])
    ensures Strip(Lower(s)) == Lower(s)
  {
  }

  /** Comparing normalised hashes compares what is stored. */
  lemma NormalizeTwice(hash: string)
    ensures Normal(Normalize(hash))
  {
    NormalizeIsLower(hash);
    StripKept(Strip(hash));
    NormalizeIsLower(Normalize(hash));
    LowerTwice(Strip(hash));
  }
}
