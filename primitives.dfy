/** The library primitives every part of the ledger relies on: JSON values,
    SHA-256 hex digests, the JSON serialisers, str() on integers, Python's
    int() on floats, string slicing and the wall-clock readings an operation
    takes. Digests and serialisers are uninterpreted: they are fields of a
    `Hasher` value, so every property proved here holds for any hash function
    and any serialiser. */
module Primitives {

  datatype Option<+T> = None | Some(value: T) {
    /** `d.get(key, default)` for a key that may be missing. */
    function GetOr(default: T): T {
      if Some? then value else default
    }
  }

  /** A JSON value. Objects are maps, so two objects with the same fields are
      the same value whatever order the fields were inserted in: this is the
      abstraction that `json.dumps(..., sort_keys=True)` provides. */
  datatype Json =
    | JNull
    | JBool(b: bool)
    | JInt(i: int)
    | JReal(r: real)
    | JStr(s: string)
    | JArr(items: seq<Json>)
    | JObj(fields: map<string, Json>)

  /** A JSON object written as a dict display: the entries in order, a later
      entry replacing an earlier one with the same key. */
  function Obj(entries: seq<(string, Json)>): map<string, Json>
    decreases |entries|
  {
    if entries == [] then map[]
    else Obj(entries[..|entries| - 1])[entries[|entries| - 1].0 := entries[|entries| - 1].1]
  }

  /** A key no entry names is not a key of the dict display. */
  lemma {:induction false} ObjLacks(entries: seq<(string, Json)>, k: string)
    requires forall i :: 0 <= i < |entries| ==> entries[i].0 != k
    ensures k !in Obj(entries)
    decreases |entries|
  {
    if entries != [] {
      ObjLacks(entries[..|entries| - 1], k);
    }
  }

  predicate IsHexDigit(c: char) {
    ('0' <= c <= '9') || ('a' <= c <= 'f')
  }

  predicate IsLowerHex(s: string) {
    forall i :: 0 <= i < |s| ==> IsHexDigit(s[i])
  }

  /** What `hashlib.sha256(...).hexdigest()` returns: 64 lower-case hex digits. */
  type Digest = s: string | |s| == 64 && IsLowerHex(s) witness seq(64, _ => '0')

  /** The seed of a fresh sequencer, `'0' * 64`. */
  const ZeroDigest: Digest := seq(64, _ => '0')

  /** The uninterpreted primitives:
      - sha256: the hex digest of the UTF-8 encoding of a string;
      - dumpsCompact: `json.dumps(v, sort_keys=True, separators=(',', ':'))`;
      - dumpsDefault: `json.dumps(v, sort_keys=True)` with the default separators;
      - show: `str(n)` for an integer. */
  datatype Hasher = Hasher(
    sha256: string -> Digest,
    dumpsCompact: Json -> string,
    dumpsDefault: Json -> string,
    show: int -> string)

  /** Python's `s[:n]`: the whole string when it is shorter than `n`. */
  function Prefix(s: string, n: nat): (p: string)
    ensures |p| == if |s| < n then |s| else n
    ensures p <= s
  {
    if |s| <= n then s else s[..n]
  }

  /** A prefix of a digest keeps its hex digits. */
  lemma PrefixOfHex(s: string, n: nat)
    requires IsLowerHex(s)
    ensures IsLowerHex(Prefix(s, n))
  {
    var p := Prefix(s, n);
    forall i | 0 <= i < |p| ensures IsHexDigit(p[i]) {
      assert p[i] == s[i];
    }
  }

  /** Python's `int(x)` on a float: truncation toward zero. */
  function Trunc(x: real): (n: int)
    ensures x >= 0.0 ==> n as real <= x < n as real + 1.0
    ensures x < 0.0 ==> n as real - 1.0 < x <= n as real
  {
    if x >= 0.0 then x.Floor else -((-x).Floor)
  }

  /** The wall-clock readings (`time.time()`) one operation takes:
      - now: the reading the operation itself takes (a challenge value, a
        transaction identifier, a contract timestamp);
      - embedTimes(k): the reading taken when the k-th transaction of a block
        is embedded into the sequencer;
      - blockTime: the reading that becomes the new block's timestamp. */
  datatype Clock = Clock(now: real, embedTimes: nat -> real, blockTime: real)
}
