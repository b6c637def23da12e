/**
  The hash scope of a proof: canonical bytes, the six-field hash payload and
  the proof identifier (provable_ai/canonical.py).
 */
module Canonical {
  import opened Prelude
  import opened TextEncoding
  import opened Sorting
  import opened Json

  /** `canonical_encode`; `None` is the CanonicalJsonError it raises. */
  function CanonicalEncode(v: Value): Option<Bytes> {
    if Validated(v) then Some(Utf8(Dumps(v, false))) else None
  }

  /**
    The encoder refuses exactly the values with a forbidden type or a
    non-string key somewhere, and on the rest two encodings agree exactly when
    the values agree up to key insertion order.
   */
  lemma CanonicalEncodeInjective(a: Value, b: Value)
    requires IsPython(a) && IsPython(b)
    ensures CanonicalEncode(a).Some? && CanonicalEncode(a) == CanonicalEncode(b)
            <==> Validated(a) && Validated(b) && Same(a, b)
  {
    if Validated(a) && Validated(b) {
      DumpsEqualIffSame(a, b, false);
      if CanonicalEncode(a) == CanonicalEncode(b) {
        Utf8Injective(Dumps(a, false), Dumps(b, false));
      }
    }
  }

  /** `true`, `1`, `"1"`, `null` and a missing key never encode alike. */
  lemma LookalikesStayDistinct(key: string, es: seq<Entry>, v: Value, w: Value)
    requires {v, w} <= {Bool(true), Int(1), Str("1"), Null} && v != w
    requires IsPython(Dict(es)) && Validated(Dict(es))
    requires forall i :: 0 <= i < |es| ==> es[i].key != Str(key)
    ensures CanonicalEncode(Dict(es + [Entry(Str(key), v)])) != CanonicalEncode(Dict(es + [Entry(Str(key), w)]))
    ensures CanonicalEncode(Dict(es + [Entry(Str(key), v)])) != CanonicalEncode(Dict(es))
  {
    var a, b, c := Dict(es + [Entry(Str(key), v)]), Dict(es + [Entry(Str(key), w)]), Dict(es);
    CanonicalEncodeInjective(a, b);
    CanonicalEncodeInjective(a, c);
    assert a.entries[|es|] == Entry(Str(key), v);
    assert !Maps(b.entries, Str(key), v);
    assert Validated(v) && Validated(a) && CanonicalEncode(a).Some?;
    assert !Same(a, b);
  }

  // ---- Records with fixed field names ----

  /** The dict `{names[0]: values[0], ...}`. */
  function Obj(names: seq<string>, values: seq<Value>): Value
    requires |names| == |values|
  {
    Dict(seq(|names|, i requires 0 <= i < |names| => Entry(Str(names[i]), values[i])))
  }

  lemma ObjIsPython(names: seq<string>, values: seq<Value>)
    requires |names| == |values| && NoDuplicates(names)
    requires forall i :: 0 <= i < |values| ==> IsPython(values[i])
    ensures IsPython(Obj(names, values))
  {
    var es := Obj(names, values).entries;
    assert forall i :: 0 <= i < |es| ==> es[i] == Entry(Str(names[i]), values[i]);
  }

  lemma ObjValidated(names: seq<string>, values: seq<Value>)
    requires |names| == |values|
    ensures Validated(Obj(names, values)) <==> forall i :: 0 <= i < |values| ==> Validated(values[i])
  {
    var es := Obj(names, values).entries;
    assert forall i :: 0 <= i < |es| ==> es[i] == Entry(Str(names[i]), values[i]);
    if Validated(Obj(names, values)) {
      forall i | 0 <= i < |values| ensures Validated(values[i]) {
        assert Validated(es[i].value);
      }
    }
  }

  /** Records over the same names are the same exactly when their fields are. */
  lemma ObjSame(names: seq<string>, xs: seq<Value>, ys: seq<Value>)
    requires |names| == |xs| == |ys| && NoDuplicates(names)
    ensures Same(Obj(names, xs), Obj(names, ys)) <==> forall i :: 0 <= i < |xs| ==> Same(xs[i], ys[i])
  {
    var es, fs := Obj(names, xs).entries, Obj(names, ys).entries;
    forall i | 0 <= i < |xs| ensures Maps(fs, es[i].key, es[i].value) <==> Same(xs[i], ys[i]) {
      if Same(xs[i], ys[i]) {
        assert fs[i].key == es[i].key && Same(es[i].value, fs[i].value);
      }
      if Maps(fs, es[i].key, es[i].value) {
        var j :| 0 <= j < |fs| && fs[j].key == es[i].key && Same(es[i].value, fs[j].value);
        assert names[j] == names[i];
        assert j == i;
      }
    }
    if Same(Obj(names, xs), Obj(names, ys)) {
      forall i | 0 <= i < |xs| ensures Same(xs[i], ys[i]) {
        assert Maps(fs, es[i].key, es[i].value);
      }
    }
  }

  /** Values without structure, for which `Same` is equality. */
  predicate Plain(v: Value) {
    v.Null? || v.Bool? || v.Int? || v.Str?
  }

  lemma PlainValidated(values: seq<Value>)
    requires forall i :: 0 <= i < |values| ==> Plain(values[i])
    ensures forall i :: 0 <= i < |values| ==> Validated(values[i]) && IsPython(values[i])
  {
    forall i | 0 <= i < |values| ensures Validated(values[i]) && IsPython(values[i]) { assert Plain(values[i]); }
  }

  /** The encoded bytes of a record of plain fields. */
  function RecordBytes(names: seq<string>, values: seq<Value>, ascii: bool): Bytes
    requires |names| == |values| && forall i :: 0 <= i < |values| ==> Plain(values[i])
  {
    ObjValidated(names, values);
    PlainValidated(values);
    Utf8(Dumps(Obj(names, values), ascii))
  }

  /** The bytes of a record determine its fields. */
  lemma RecordBytesInjective(names: seq<string>, xs: seq<Value>, ys: seq<Value>, ascii: bool)
    requires |names| == |xs| == |ys| && NoDuplicates(names)
    requires forall i :: 0 <= i < |xs| ==> Plain(xs[i]) && Plain(ys[i])
    requires RecordBytes(names, xs, ascii) == RecordBytes(names, ys, ascii)
    ensures xs == ys
  {
    PlainValidated(xs);
    PlainValidated(ys);
    ObjValidated(names, xs);
    ObjValidated(names, ys);
    ObjIsPython(names, xs);
    ObjIsPython(names, ys);
    Utf8Injective(Dumps(Obj(names, xs), ascii), Dumps(Obj(names, ys), ascii));
    DumpsEqualIffSame(Obj(names, xs), Obj(names, ys), ascii);
    ObjSame(names, xs, ys);
    forall i | 0 <= i < |xs| ensures xs[i] == ys[i] { assert Plain(xs[i]) && Same(xs[i], ys[i]); }
  }

  function Text(o: Option<string>): Value {
    if o.Some? then Str(o.value) else Null
  }

  function Number(o: Option<int>): Value {
    if o.Some? then Int(o.value) else Null
  }

  // ---- The hash payload ----

  const HASH_FIELDS: seq<string> :=
    ["decision", "decision_context", "governance", "determinism", "previous_hash", "sequence_id"]

  const EXCLUDED_FIELDS: set<string> :=
    {"timestamp", "current_hash", "signature", "public_key", "key_id", "type", "instance_id", "proof_id", "tenant_id"}

  lemma HashFieldsDistinct()
    ensures NoDuplicates(HASH_FIELDS)
  {
    assert HASH_FIELDS[3][0] != HASH_FIELDS[5][0];
  }

  datatype PayloadError = NotADict | MissingField | ExcludedField | UnknownField | ForbiddenType

  function Keys(v: Value): set<Value>
    requires v.Dict?
  {
    set i | 0 <= i < |v.entries| :: v.entries[i].key
  }

  /** `validate_hash_payload`; `None` means that nothing is raised. */
  function ValidateHashPayload(v: Value): (r: Option<PayloadError>)
    ensures r.None? <==> v.Dict? && Keys(v) == (set f | f in HASH_FIELDS :: Str(f)) && Validated(v)
  {
    if !v.Dict? then Some(NotADict)
    else
      var required := set f | f in HASH_FIELDS :: Str(f);
      if !(required <= Keys(v)) then Some(MissingField)
      else if (set f | f in EXCLUDED_FIELDS :: Str(f)) * Keys(v) != {} then
        assert Keys(v) != required;
        Some(ExcludedField)
      else if !(Keys(v) <= required) then Some(UnknownField)
      else if !Validated(v) then Some(ForbiddenType)
      else None
  }

  // ---- The proof identifier ----

  /** The bytes behind `f"{current_hash}:{sequence_id}"`. */
  function ProofIdInput(currentHash: Digest, sequenceId: int): Bytes {
    Utf8(Hex(currentHash) + ":" + Decimal(sequenceId))
  }

  function ProofId(h: HashFn, currentHash: Digest, sequenceId: int): string {
    Hex(h(ProofIdInput(currentHash, sequenceId)))
  }

  /** A proof id names one chain position, or a collision is at hand. */
  lemma ProofIdBinding(h: HashFn, c1: Digest, s1: int, c2: Digest, s2: int)
    requires ProofId(h, c1, s1) == ProofId(h, c2, s2)
    ensures (c1 == c2 && s1 == s2) || Collides(h, {ProofIdInput(c1, s1)}, {ProofIdInput(c2, s2)})
  {
    var x, y := ProofIdInput(c1, s1), ProofIdInput(c2, s2);
    HexInjective(h(x), h(y));
    if x == y {
      var a, b := Hex(c1) + ":" + Decimal(s1), Hex(c2) + ":" + Decimal(s2);
      Utf8Injective(a, b);
      HexLength(c1);
      HexLength(c2);
      assert Hex(c1) == a[..64] == b[..64] == Hex(c2);
      assert Decimal(s1) == a[65..] == b[65..] == Decimal(s2);
      HexInjective(c1, c2);
      DecimalInjective(s1, s2);
    }
  }
}
