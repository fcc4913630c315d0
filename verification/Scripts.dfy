/** Address families, output scripts and their sizes (src/wallet_agent/chains/btc.py). */
module Scripts {
  import opened Wrappers
  import opened Digits
  import opened Framing
  import opened Transaction
  import Base58
  import Segwit

  datatype Family = P2pkh | P2sh | P2wpkh | P2tr

  /** Python's text methods and the four-byte checksum of Base58Check. */
  datatype Env = Env(text: Segwit.TextMethods, checksum: seq<byte> -> seq<byte>)

  function InputVbytes(f: Family): nat {
    match f
    case P2pkh => 148
    case P2sh => 91
    case P2wpkh => 68
    case P2tr => 58
  }

  function OutputVbytes(f: Family): nat {
    match f
    case P2pkh => 34
    case P2sh => 32
    case P2wpkh => 31
    case P2tr => 43
  }

  /** Base58Check text of a 21-byte payload. */
  ghost predicate SpellsPayload(env: Env, text: string, p: bytes, version: byte) {
    |p| == 21 && p[0] == version && |env.checksum(p)| == 4 && text == Base58.Encoded(p + env.checksum(p))
  }

  predicate StartsWith(text: string, c: char) {
    text != "" && text[0] == c
  }

  /** The script that pays to the holder of `address`, by address family. */
  ghost predicate ScriptOf(env: Env, address: string, f: Family, script: bytes) {
    var text := env.text.strip(address);
    match f
    case P2pkh =>
      StartsWith(text, '1') && exists p ::
        SpellsPayload(env, text, p, 0) && script == [0x76, 0xA9, 0x14] + p[1..] + [0x88, 0xAC]
    case P2sh =>
      StartsWith(text, '3') && exists p ::
        SpellsPayload(env, text, p, 5) && script == [0xA9, 0x14] + p[1..] + [0x87]
    case P2wpkh =>
      !StartsWith(text, '1') && !StartsWith(text, '3') && exists w ::
        Segwit.Accepts(env.text, text, w) && w.version == 0 && |w.program| == 20
        && script == [0x00, 20] + w.program
    case P2tr =>
      !StartsWith(text, '1') && !StartsWith(text, '3') && exists w ::
        Segwit.Accepts(env.text, text, w) && w.version == 1 && |w.program| == 32
        && script == [0x51, 32] + w.program
  }

  /** `None` where `address_family` or the assertions of `script_pubkey` raise. */
  method ScriptPubkey(env: Env, address: string) returns (r: Option<(Family, bytes)>)
    ensures r.Some? ==> ScriptOf(env, address, r.value.0, r.value.1)
    ensures r.None? ==> forall f, s :: !ScriptOf(env, address, f, s)
  {
    var text := env.text.strip(address);
    if StartsWith(text, '1') {
      var p := Base58.CheckPayload(text, Some(0), env.checksum);
      if p.None? { return None; }
      assert SpellsPayload(env, text, p.value, 0);
      return Some((P2pkh, [0x76, 0xA9, 0x14] + p.value[1..] + [0x88, 0xAC]));
    }
    if StartsWith(text, '3') {
      var p := Base58.CheckPayload(text, Some(5), env.checksum);
      if p.None? { return None; }
      assert SpellsPayload(env, text, p.value, 5);
      return Some((P2sh, [0xA9, 0x14] + p.value[1..] + [0x87]));
    }
    var decoded := Segwit.Decode(env.text, text);
    if decoded.None? { return None; }
    var w := decoded.value;
    assert Segwit.Accepts(env.text, text, w);
    if w.version == 0 && |w.program| == 20 {
      return Some((P2wpkh, [0x00, |w.program|] + w.program));
    }
    if w.version == 1 && |w.program| == 32 {
      return Some((P2tr, [0x50 + w.version, |w.program|] + w.program));
    }
    return None;
  }

  /** The output table is exact: it gives the serialised length of an output of the family. */
  lemma OutputTableExact(env: Env, address: string, f: Family, script: bytes, amount: nat)
    requires ScriptOf(env, address, f, script) && amount < U64
    ensures |script| < 50 && |OutBytes(TxOut(script, amount))| == OutputVbytes(f)
  {}

  /** A script determines its family, and the address up to surrounding space and letter case. */
  lemma ScriptDeterminesAddress(env: Env, a: string, f: Family, b: string, g: Family, script: bytes)
    requires ScriptOf(env, a, f, script) && ScriptOf(env, b, g, script)
    ensures f == g
    ensures f == P2pkh || f == P2sh ==> env.text.strip(a) == env.text.strip(b)
    ensures f == P2wpkh || f == P2tr ==>
      env.text.lower(env.text.strip(env.text.strip(a))) == env.text.lower(env.text.strip(env.text.strip(b)))
  {
    FamilyOfScript(env, a, f, script);
    FamilyOfScript(env, b, g, script);
    if f == P2pkh || f == P2sh {
      PayloadDeterminesAddress(env, a, b, f, script);
    } else {
      var v := WitnessOfScript(env, a, f, script);
      var w := WitnessOfScript(env, b, g, script);
    }
  }

  lemma PayloadDeterminesAddress(env: Env, a: string, b: string, f: Family, script: bytes)
    requires ScriptOf(env, a, f, script) && ScriptOf(env, b, f, script) && (f == P2pkh || f == P2sh)
    ensures env.text.strip(a) == env.text.strip(b)
  {
    var version := if f == P2pkh then 0 else 5;
    var p := PayloadOfScript(env, a, f, script);
    var q := PayloadOfScript(env, b, f, script);
    SamePayload(env, env.text.strip(a), env.text.strip(b), p, q, version);
  }

  lemma SamePayload(env: Env, s: string, t: string, p: bytes, q: bytes, version: byte)
    requires SpellsPayload(env, s, p, version) && SpellsPayload(env, t, q, version) && p[1..] == q[1..]
    ensures s == t
  {
    assert p == [version] + p[1..] && q == [version] + q[1..];
  }

  lemma PayloadOfScript(env: Env, a: string, f: Family, script: bytes) returns (p: bytes)
    requires ScriptOf(env, a, f, script) && (f == P2pkh || f == P2sh)
    ensures SpellsPayload(env, env.text.strip(a), p, if f == P2pkh then 0 else 5)
    ensures |script| >= 23 && p[1..] == (if f == P2pkh then script[3..23] else script[2..22])
  {
    var s := env.text.strip(a);
    if f == P2pkh {
      p :| SpellsPayload(env, s, p, 0) && script == [0x76, 0xA9, 0x14] + p[1..] + [0x88, 0xAC];
    } else {
      p :| SpellsPayload(env, s, p, 5) && script == [0xA9, 0x14] + p[1..] + [0x87];
    }
  }

  lemma WitnessOfScript(env: Env, a: string, f: Family, script: bytes) returns (w: Segwit.Witness)
    requires ScriptOf(env, a, f, script) && (f == P2wpkh || f == P2tr)
    ensures Segwit.Accepts(env.text, env.text.strip(a), w)
    ensures |script| >= 2 && w == Segwit.Witness(if f == P2wpkh then 0 else 1, script[2..])
  {
    var s := env.text.strip(a);
    if f == P2wpkh {
      w :| Segwit.Accepts(env.text, s, w) && w.version == 0 && |w.program| == 20 && script == [0x00, 20] + w.program;
    } else {
      w :| Segwit.Accepts(env.text, s, w) && w.version == 1 && |w.program| == 32 && script == [0x51, 32] + w.program;
    }
  }

  lemma FamilyOfScript(env: Env, a: string, f: Family, script: bytes)
    requires ScriptOf(env, a, f, script)
    ensures script != []
    ensures script[0] == (match f case P2pkh => 0x76 case P2sh => 0xA9 case P2wpkh => 0x00 case P2tr => 0x51)
  {}

  // ---------- the memo output ----------

  /** `OP_RETURN <push> <data>`; data of 2^32 bytes or more is an `OverflowError`. */
  function OpReturnScript(data: bytes): (r: Option<bytes>)
    ensures r.Some? <==> |data| < U32
    ensures r.Some? ==> |r.value| <= |data| + 6
  {
    var n := |data|;
    if n >= U32 then None
    else
      var push := if n <= 75 then [n] else if n <= 0xFF then [0x4C, n]
                  else if n <= 0xFFFF then [0x4D] + LittleEndian(n, 2) else [0x4E] + LittleEndian(n, 4);
      Some([0x6A] + push + data)
  }

  /** Reads the data of an `OP_RETURN` script with a single push. */
  function PushedData(script: bytes): Option<bytes> {
    if |script| < 2 || script[0] != 0x6A then None
    else
      var op, rest := script[1], script[2..];
      if op <= 75 then Exactly(op, rest)
      else if op > 0x4E then None
      else
        match ReadNumber(rest, if op == 0x4C then 1 else if op == 0x4D then 2 else 4)
        case None => None
        case Some((n, data)) => Exactly(n, data)
  }

  function Exactly(n: nat, data: bytes): Option<bytes> {
    if |data| == n then Some(data) else None
  }

  /** The memo comes back out of its script, whatever push opcode its length needs. */
  lemma PushedDataOfScript(data: bytes)
    requires |data| < U32
    ensures PushedData(OpReturnScript(data).value) == Some(data)
  {
    var n := |data|;
    var script := OpReturnScript(data).value;
    Widths();
    if n <= 75 {
      assert script[2..] == data;
    } else {
      var k := if n <= 0xFF then 1 else if n <= 0xFFFF then 2 else 4;
      assert Pow(256, 1) == 256;
      assert LittleEndian(n, 1) == [n % 256];
      assert script[2..] == LittleEndian(n, k) + data;
      ReadWrittenNumber(n, k, data);
    }
  }

  /** `_output_vbytes`. */
  function OutputSize(script: bytes): nat {
    8 + (if |script| < 0xFD then 1 else if |script| < 0x10000 then 3 else 5) + |script|
  }

  /** The size estimate of an output is its serialised length for every script below 2^32 bytes. */
  lemma OutputSizeExact(script: bytes, amount: nat)
    requires |script| < U32 && amount < U64
    ensures OutputSize(script) == |OutBytes(TxOut(script, amount))|
  {}
}
