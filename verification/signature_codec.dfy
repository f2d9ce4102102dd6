/** `convertSignatures` (src/LedgerUtils.ts:229-244). */
module SignatureCodec {

  /** The JavaScript values the function can meet: strings, arrays, and anything else. */
  datatype JsValue = JsString(s: string) | JsArray(elements: seq<JsValue>) | JsOther(tag: nat)

  /** Lines 230-232: a non-array argument is wrapped into a one-element array. */
  function AsArray(sigs: JsValue): seq<JsValue>
  {
    if sigs.JsArray? then sigs.elements else [sigs]
  }

  /** Line 234, `[].concat.apply([], sigs)`: array elements are spread, others kept. */
  function FlattenOnce(xs: seq<JsValue>): seq<JsValue>
  {
    if |xs| == 0 then []
    else (if xs[0].JsArray? then xs[0].elements else [xs[0]]) + FlattenOnce(xs[1..])
  }

  lemma {:induction false} FlattenOnceAppend(a: seq<JsValue>, b: seq<JsValue>)
    ensures FlattenOnce(a + b) == FlattenOnce(a) + FlattenOnce(b)
  {
    if |a| == 0 {
      assert a + b == b;
    } else {
      assert (a + b)[1..] == a[1..] + b;
      FlattenOnceAppend(a[1..], b);
    }
  }

  /** A list without arrays in it is left as it is by the flattening. */
  lemma {:induction false} FlattenOnceOfFlat(xs: seq<JsValue>)
    requires forall i | 0 <= i < |xs| :: !xs[i].JsArray?
    ensures FlattenOnce(xs) == xs
  {
    if |xs| > 0 {
      FlattenOnceOfFlat(xs[1..]);
    }
  }

  /** What line 238 recognises as a raw `v || r || s` signature: a 130-character string. */
  predicate IsRawSignature(v: JsValue) {
    v.JsString? && |v.s| == 130
  }

  /** The list `convertSignatures` returns. `fromRaw` stands for
      `ecc.Signature.from(sig).toString()`, an elliptic-curve conversion left uninterpreted. */
  function ConvertSignatures(sigs: JsValue, fromRaw: string -> string): (r: seq<JsValue>)
    ensures var flat := FlattenOnce(AsArray(sigs));
      && |r| == |flat|
      && (forall i | 0 <= i < |flat| :: IsRawSignature(flat[i]) ==> r[i] == JsString(fromRaw(flat[i].s)))
      && (forall i | 0 <= i < |flat| :: !IsRawSignature(flat[i]) ==> r[i] == flat[i])
  {
    ConvertFrom(FlattenOnce(AsArray(sigs)), 0, fromRaw)
  }

  /** The loop of lines 236-241 from index `i` on: `sigs[i]` is overwritten in place when
      it is a raw signature, then the loop moves to `i + 1`. Entries before `i` are never
      touched again. */
  function ConvertFrom(sigs: seq<JsValue>, i: nat, fromRaw: string -> string): (r: seq<JsValue>)
    requires i <= |sigs|
    ensures |r| == |sigs|
    ensures forall j | 0 <= j < i :: r[j] == sigs[j]
    ensures forall j | i <= j < |sigs| :: IsRawSignature(sigs[j]) ==> r[j] == JsString(fromRaw(sigs[j].s))
    ensures forall j | i <= j < |sigs| :: !IsRawSignature(sigs[j]) ==> r[j] == sigs[j]
    decreases |sigs| - i
  {
    if i == |sigs| then sigs
    else
      var sig := sigs[i];
      ConvertFrom(if IsRawSignature(sig) then sigs[i := JsString(fromRaw(sig.s))] else sigs, i + 1, fromRaw)
  }

  /** A single string comes back as a one-element list: converted when it has 130
      characters, unchanged otherwise. */
  lemma ConvertSingleString(s: string, fromRaw: string -> string)
    ensures ConvertSignatures(JsString(s), fromRaw)
         == [JsString(if |s| == 130 then fromRaw(s) else s)]
  {
    assert FlattenOnce([JsString(s)]) == [JsString(s)];
  }

  /** Input without any 130-character string passes through flattened but otherwise
      unchanged, so already-canonical signatures survive. */
  lemma ConvertWithoutRawIsFlatten(sigs: JsValue, fromRaw: string -> string)
    requires forall v | v in FlattenOnce(AsArray(sigs)) :: !IsRawSignature(v)
    ensures ConvertSignatures(sigs, fromRaw) == FlattenOnce(AsArray(sigs))
  {
  }

  /** Conversion commutes with concatenating the (flattened) inputs. */
  lemma ConvertAppend(a: seq<JsValue>, b: seq<JsValue>, fromRaw: string -> string)
    ensures ConvertSignatures(JsArray(a + b), fromRaw)
         == ConvertSignatures(JsArray(a), fromRaw) + ConvertSignatures(JsArray(b), fromRaw)
  {
    FlattenOnceAppend(a, b);
    var fa, fb := FlattenOnce(a), FlattenOnce(b);
    assert FlattenOnce(AsArray(JsArray(a + b))) == fa + fb;
    var r := ConvertSignatures(JsArray(a + b), fromRaw);
    var ra, rb := ConvertSignatures(JsArray(a), fromRaw), ConvertSignatures(JsArray(b), fromRaw);
    assert |r| == |ra + rb|;
    forall i | 0 <= i < |r|
      ensures r[i] == (ra + rb)[i]
    {
      if i < |fa| {
        assert (fa + fb)[i] == fa[i];
      } else {
        assert (fa + fb)[i] == fb[i - |fa|];
      }
    }
  }
}
