/** Values shared by both controller versions: bytes, the Python exceptions the
    controller can raise, the 16-bit nibble codec and the semantics of a Python
    dict literal. */
module Visca {

  /** One element of a Python `bytes` object. */
  type byte = x: int | 0 <= x < 256

  /** How a call can end other than by returning: the Python exceptions the
      controller code raises, and `Stalled` for a read loop that never sees the
      terminator (the source keeps calling `read()` forever). */
  datatype Fault =
    | KeyError            // a key missing from a lookup table
    | IndexError          // `x[0]` or `x[1]` on a sequence that is too short
    | OverflowError       // `int.to_bytes` on a value that does not fit
    | UnboundLocalError   // a local variable read before any assignment
    | NameError           // a name that is defined nowhere
    | Stalled             // the input ran out before a 0xFF terminator

  /** The outcome of a Python call: the value it returns, or the exception it raises. */
  datatype Result<+T> = Ok(value: T) | Raised(fault: Fault) {
    predicate IsFailure() { Raised? }
    function PropagateFailure<U>(): Result<U>
      requires Raised?
    {
      Raised(fault)
    }
    function Extract(): T
      requires Ok?
    {
      value
    }
  }

  datatype Option<+T> = None | Some(value: T)

  /** The VISCA message terminator. */
  const Terminator: byte := 0xFF

  /** `n.to_bytes(1, "big")`: a single byte, or OverflowError outside 0..255. */
  function ToByte(n: int): (r: Result<seq<byte>>)
    ensures r.Ok? <==> 0 <= n < 256
    ensures r.Ok? ==> r.value == [n]
    ensures r.Raised? ==> r.fault == OverflowError
  {
    if 0 <= n < 256 then Ok([n]) else Raised(OverflowError)
  }

  /** Every byte of `s` fits in four bits. */
  predicate IsNibbles(s: seq<byte>) {
    forall i :: 0 <= i < |s| ==> s[i] <= 0x0F
  }

  /** `__toVisca2b`: `value.to_bytes(2, 'big')` split into four nibbles, high
      nibble first, each in the low half of its own byte. `to_bytes` raises
      OverflowError for a negative value or one above 0xFFFF. */
  function ToVisca2b(value: int): (r: Result<seq<byte>>)
    ensures r.Ok? <==> 0 <= value < 0x1_0000
    ensures r.Raised? ==> r.fault == OverflowError
    ensures r.Ok? ==> |r.value| == 4 && IsNibbles(r.value)
    ensures r.Ok? ==>
      0x1000 * (r.value[0] as int) + 0x100 * (r.value[1] as int) + 0x10 * (r.value[2] as int) + r.value[3] == value
  {
    if 0 <= value < 0x1_0000 then
      var hi, lo := value / 0x100, value % 0x100;
      // `b >> 4` and `b & 0x0f` on a byte are its quotient and remainder by 16
      Ok([hi / 0x10, hi % 0x10, lo / 0x10, lo % 0x10])
    else
      Raised(OverflowError)
  }

  /** The 16-bit value that four nibble bytes stand for (big-endian reassembly). */
  function Visca2bValue(s: seq<byte>): (v: int)
    requires |s| == 4 && IsNibbles(s)
    ensures 0 <= v < 0x1_0000
  {
    0x1000 * (s[0] as int) + 0x100 * (s[1] as int) + 0x10 * (s[2] as int) + s[3]
  }

  /** Encoding the value of any four nibbles gives back those nibbles: the
      codec is a bijection between 0..0xFFFF and four-nibble sequences. */
  lemma Visca2bEncodes(s: seq<byte>)
    requires |s| == 4 && IsNibbles(s)
    ensures ToVisca2b(Visca2bValue(s)) == Ok(s)
  {
    var v := Visca2bValue(s);
    var hi: int, lo: int := 0x10 * (s[0] as int) + s[1], 0x10 * (s[2] as int) + s[3];
    assert v == 0x100 * hi + lo && 0 <= lo < 0x100;
    assert v / 0x100 == hi && v % 0x100 == lo;
    assert hi / 0x10 == s[0] && hi % 0x10 == s[1];
    assert lo / 0x10 == s[2] && lo % 0x10 == s[3];
    assert s == [s[0], s[1], s[2], s[3]];
  }

  /** The map a Python dict literal with these entries, in this order, evaluates
      to: every key present, each bound to the value of its LAST entry. */
  function Dict<K(!new), V>(entries: seq<(K, V)>): (m: map<K, V>)
    ensures forall k :: k in m <==> exists i :: 0 <= i < |entries| && entries[i].0 == k
    decreases |entries|
  {
    if entries == [] then map[]
    else
      var last := entries[|entries| - 1];
      var m := Dict(entries[..|entries| - 1]);
      assert forall i :: 0 <= i < |entries| - 1 ==> entries[..|entries| - 1][i] == entries[i];
      m[last.0 := last.1]
  }

  /** An entry whose key does not occur again later is the one the dict keeps. */
  lemma {:induction false} DictKeepsLast<K(!new), V>(entries: seq<(K, V)>, i: nat)
    requires i < |entries|
    requires forall j :: i < j < |entries| ==> entries[j].0 != entries[i].0
    ensures entries[i].0 in Dict(entries) && Dict(entries)[entries[i].0] == entries[i].1
  {
    if i < |entries| - 1 {
      var init := entries[..|entries| - 1];
      assert init[i] == entries[i];
      forall j | i < j < |init| ensures init[j].0 != init[i].0 {
        assert init[j] == entries[j];
      }
      DictKeepsLast(init, i);
    }
  }

  /** Every value in the dict comes from an entry whose key is not repeated
      later: a value written only under keys that recur later is unreachable. */
  lemma {:induction false} DictValueSource<K(!new), V>(entries: seq<(K, V)>, k: K)
    requires k in Dict(entries)
    ensures exists i :: 0 <= i < |entries| && entries[i] == (k, Dict(entries)[k]) &&
                        forall j :: i < j < |entries| ==> entries[j].0 != k
  {
    var last := entries[|entries| - 1];
    var init := entries[..|entries| - 1];
    if last.0 != k {
      DictValueSource(init, k);
      var i :| 0 <= i < |init| && init[i] == (k, Dict(init)[k]) &&
        forall j :: i < j < |init| ==> init[j].0 != k;
      assert entries[i] == init[i];
      forall j | i < j < |entries| ensures entries[j].0 != k {
        if j < |init| { assert entries[j] == init[j]; }
      }
    } else {
      assert entries[|entries| - 1] == (k, Dict(entries)[k]);
    }
  }
}
