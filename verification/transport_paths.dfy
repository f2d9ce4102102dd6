/** Identity strings `"kind:path"` and the shorthand account paths (src/LedgerUtils.ts). */
module TransportPaths {
  import opened Wrappers
  import opened Errors

  /** One key slot: a channel kind (`usb`, `bluetooth`, or whatever text preceded the
      first `:`) and a BIP-0032 derivation path in text form. */
  datatype TransportPathPair = TransportPathPair(transportType: string, path: string)

  /** BIP-0044 purpose 44', coin type 194', account 0', external chain 0. */
  const LedgerPathPrefix: string := "44'/194'/0'/0/"

  // ---- JavaScript numbers, as far as `parseInt(s, 10).toString()` needs them ----

  /** A JavaScript number restricted to what `parseInt` returns: an integer or NaN
      (`-0` prints as `0`, so it is the integer 0 here). */
  datatype JsNumber = Finite(n: int) | NaN

  predicate IsDigit(c: char) {
    '0' <= c <= '9'
  }

  /** The characters `parseInt` skips before the number (ECMAScript StrWhiteSpaceChar). */
  predicate IsJsWhitespace(c: char) {
    c as int in {0x09, 0x0A, 0x0B, 0x0C, 0x0D, 0x20, 0xA0, 0x1680, 0x2028, 0x2029, 0x202F, 0x205F, 0x3000, 0xFEFF}
    || 0x2000 <= c as int <= 0x200A
  }

  function TrimStart(s: string): (r: string)
    ensures |r| == 0 || !IsJsWhitespace(r[0])
    ensures |s| > 0 && !IsJsWhitespace(s[0]) ==> r == s
  {
    if |s| > 0 && IsJsWhitespace(s[0]) then TrimStart(s[1..]) else s
  }

  /** The longest prefix of decimal digits. */
  function LeadingDigits(s: string): (r: string)
    ensures |r| <= |s| && r == s[..|r|]
    ensures forall i | 0 <= i < |r| :: IsDigit(r[i])
    ensures (forall i | 0 <= i < |s| :: IsDigit(s[i])) ==> r == s
  {
    if |s| > 0 && IsDigit(s[0]) then [s[0]] + LeadingDigits(s[1..]) else []
  }

  function DigitValue(c: char): nat
    requires IsDigit(c)
  {
    c as int - '0' as int
  }

  function DigitChar(d: nat): char
    requires d < 10
  {
    ('0' as int + d) as char
  }

  /** The value of a string of decimal digits. */
  function ParseDigits(s: string): nat
    requires forall i | 0 <= i < |s| :: IsDigit(s[i])
  {
    if |s| == 0 then 0 else ParseDigits(s[..|s| - 1]) * 10 + DigitValue(s[|s| - 1])
  }

  /** `parseInt(s, 10)`: skip whitespace, take an optional sign and the leading digits;
      NaN when there are none. */
  function ParseInt(s: string): JsNumber
  {
    var t := TrimStart(s);
    var negative := |t| > 0 && t[0] == '-';
    var u := if |t| > 0 && (t[0] == '-' || t[0] == '+') then t[1..] else t;
    var digits := LeadingDigits(u);
    if |digits| == 0 then NaN
    else if negative then Finite(-(ParseDigits(digits) as int))
    else Finite(ParseDigits(digits))
  }

  function NatToString(n: nat): (r: string)
    decreases n
  {
    if n < 10 then [DigitChar(n)] else NatToString(n / 10) + [DigitChar(n % 10)]
  }

  /** `Number.prototype.toString()` for the numbers `parseInt` returns. */
  function NumberToString(x: JsNumber): string
  {
    match x
    case NaN => "NaN"
    case Finite(n) => if n < 0 then "-" + NatToString(-n) else NatToString(n)
  }

  // ---- An independent description of the strings that print back unchanged ----

  /** Decimal digits without a superfluous leading zero. */
  predicate IsCanonicalNat(s: string) {
    && |s| >= 1
    && (forall i | 0 <= i < |s| :: IsDigit(s[i]))
    && (s[0] != '0' || |s| == 1)
  }

  /** The text of an integer as JavaScript prints it: no `+`, no `-0`, no leading zero. */
  predicate IsCanonicalInt(s: string) {
    || IsCanonicalNat(s)
    || (|s| >= 2 && s[0] == '-' && s[1] != '0' && IsCanonicalNat(s[1..]))
  }

  lemma {:induction false} NatToStringIsCanonical(n: nat)
    ensures IsCanonicalNat(NatToString(n))
    ensures ParseDigits(NatToString(n)) == n
    decreases n
  {
    var r := NatToString(n);
    if n >= 10 {
      NatToStringIsCanonical(n / 10);
      assert r[..|r| - 1] == NatToString(n / 10);
    }
  }

  lemma {:induction false} ParseDigitsPositive(s: string)
    requires IsCanonicalNat(s) && s[0] != '0'
    ensures ParseDigits(s) > 0
    decreases |s|
  {
    if |s| > 1 {
      ParseDigitsPositive(s[..|s| - 1]);
    }
  }

  lemma {:induction false} CanonicalNatRoundTrip(s: string)
    requires IsCanonicalNat(s)
    ensures NatToString(ParseDigits(s)) == s
    decreases |s|
  {
    if |s| > 1 {
      var p := s[..|s| - 1];
      assert IsCanonicalNat(p);
      ParseDigitsPositive(p);
      CanonicalNatRoundTrip(p);
      assert s == p + [s[|s| - 1]];
    }
  }

  /** Whatever `parseInt` returns prints as a canonical integer text or "NaN". */
  lemma {:induction false} PrintedNumberIsCanonical(x: JsNumber)
    ensures IsCanonicalInt(NumberToString(x)) || NumberToString(x) == "NaN"
  {
    if x.Finite? {
      var m: nat := if x.n < 0 then -x.n else x.n;
      NatToStringIsCanonical(m);
      if x.n < 0 {
        var t := NumberToString(x);
        assert t[1..] == NatToString(m);
      }
    }
  }

  /** A canonical natural is read back by `parseInt` as itself. */
  lemma CanonicalNatParses(s: string)
    requires IsCanonicalNat(s)
    ensures ParseInt(s) == Finite(ParseDigits(s))
  {
    assert TrimStart(s) == s;
    assert LeadingDigits(s) == s;
  }

  /** A negative canonical integer is read back by `parseInt` as itself. */
  lemma CanonicalNegativeParses(s: string)
    requires |s| >= 2 && s[0] == '-' && s[1] != '0' && IsCanonicalNat(s[1..])
    ensures ParseInt(s) == Finite(-(ParseDigits(s[1..]) as int))
  {
    assert TrimStart(s) == s;
    assert LeadingDigits(s[1..]) == s[1..];
  }

  /** Canonical integer text survives `parseInt` followed by `toString`. */
  lemma CanonicalIntPrintsBack(s: string)
    requires IsCanonicalInt(s)
    ensures NumberToString(ParseInt(s)) == s
  {
    if IsCanonicalNat(s) {
      CanonicalNatParses(s);
      CanonicalNatRoundTrip(s);
    } else {
      CanonicalNegativeParses(s);
      ParseDigitsPositive(s[1..]);
      CanonicalNatRoundTrip(s[1..]);
      assert s == "-" + s[1..];
    }
  }

  /** `parseInt("NaN", 10)` is NaN, which prints as "NaN". */
  lemma NaNPrintsBack()
    ensures NumberToString(ParseInt("NaN")) == "NaN"
  {
    assert TrimStart("NaN") == "NaN";
    assert LeadingDigits("NaN") == [];
  }

  /** `parseInt(s, 10).toString() === s` holds exactly for the canonical integer texts and "NaN". */
  lemma ParseIntPrintsBackIff(s: string)
    ensures NumberToString(ParseInt(s)) == s <==> IsCanonicalInt(s) || s == "NaN"
  {
    PrintedNumberIsCanonical(ParseInt(s));
    if IsCanonicalInt(s) {
      CanonicalIntPrintsBack(s);
    } else if s == "NaN" {
      NaNPrintsBack();
    }
  }

  // ---- src/LedgerUtils.ts:30-52 ----

  /** `GET_LEDGER_PATHS(index)`: the BIP-0044 path of address `index` of the first account. */
  function GetLedgerPaths(index: JsNumber): string
  {
    LedgerPathPrefix + NumberToString(index)
  }

  /** The source's shorthand test: no `/`, and `parseInt` prints the text back unchanged. */
  predicate IsShorthand(s: string) {
    '/' !in s && NumberToString(ParseInt(s)) == s
  }

  /** `convertShortHandPaths`: a bare integer (or "NaN") becomes the account-0 path of that
      index; every other string is returned unchanged. */
  function ConvertShortHandPaths(s: string): (r: string)
    ensures '/' !in s && (IsCanonicalInt(s) || s == "NaN") ==> r == LedgerPathPrefix + s
    ensures !('/' !in s && (IsCanonicalInt(s) || s == "NaN")) ==> r == s
    ensures IsShorthand(s) <==> r != s
  {
    ParseIntPrintsBackIff(s);
    if IsShorthand(s) then GetLedgerPaths(ParseInt(s)) else s
  }

  /** Expansion always introduces a `/`, so a second conversion changes nothing. */
  lemma ConvertShortHandPathsIdempotent(s: string)
    ensures ConvertShortHandPaths(ConvertShortHandPaths(s)) == ConvertShortHandPaths(s)
  {
    var r := ConvertShortHandPaths(s);
    if r != s {
      assert r[2] == '\'' && r[3] == '/';
      assert '/' in r;
    }
  }

  /** The default `GET_LEDGER_PATHS()` and the shorthand `"0"` both denote 44'/194'/0'/0/0. */
  lemma DefaultLedgerPath()
    ensures GetLedgerPaths(Finite(0)) == "44'/194'/0'/0/0"
    ensures ConvertShortHandPaths("0") == "44'/194'/0'/0/0"
  {
    assert IsCanonicalNat("0");
  }

  /** `transportPathPairToString`. */
  function TransportPathPairToString(tpp: TransportPathPair): string
  {
    tpp.transportType + ":" + tpp.path
  }

  /** `str.indexOf(c)` as an option: the first position holding `c`. */
  function IndexOf(s: string, c: char): (r: Option<nat>)
    ensures r.None? <==> c !in s
    ensures r.Some? ==> r.value < |s| && s[r.value] == c && c !in s[..r.value]
  {
    if |s| == 0 then None
    else if s[0] == c then Some(0)
    else match IndexOf(s[1..], c)
      case None => None
      case Some(i) =>
        assert s[..i + 1] == [s[0]] + s[1..][..i];
        Some(i + 1)
  }

  /** `stringToTransportPathPair`: split at the first `:`, expand a shorthand path,
      throw on a string without `:`. */
  function StringToTransportPathPair(str: string): (r: Result<TransportPathPair, Error>)
    ensures r.Failure? <==> ':' !in str
    ensures r.Failure? ==> r.error == InvalidTransportPathPair
    ensures r.Success? ==>
      && ':' !in r.value.transportType
      && exists raw :: str == r.value.transportType + ":" + raw && r.value.path == ConvertShortHandPaths(raw)
  {
    match IndexOf(str, ':')
    case None => Failure(InvalidTransportPathPair)
    case Some(ind) =>
      var kind, raw := str[..ind], str[ind + 1..];
      assert str == kind + ":" + raw;
      Success(TransportPathPair(kind, ConvertShortHandPaths(raw)))
  }

  /** The kind a cached `"kind:path"` key belongs to, as the disconnect handler reads it. */
  function KindOfKey(key: string): Option<string>
  {
    match StringToTransportPathPair(key)
    case Success(tpp) => Some(tpp.transportType)
    case Failure(_) => None
  }

  lemma {:induction false} ParseOfPrinted(kind: string, raw: string)
    requires ':' !in kind
    ensures StringToTransportPathPair(kind + ":" + raw)
         == Success(TransportPathPair(kind, ConvertShortHandPaths(raw)))
  {
    var str := kind + ":" + raw;
    var i := IndexOf(str, ':');
    assert str[|kind|] == ':';
    assert i.Some?;
    assert i.value == |kind|;
    assert str[..|kind|] == kind && str[|kind| + 1..] == raw;
  }

  /** Printing then parsing gives the pair back when its kind has no `:` and its path is
      not a shorthand. */
  lemma PairRoundTrip(tpp: TransportPathPair)
    requires ':' !in tpp.transportType
    requires !IsShorthand(tpp.path)
    ensures StringToTransportPathPair(TransportPathPairToString(tpp)) == Success(tpp)
  {
    ParseOfPrinted(tpp.transportType, tpp.path);
  }

  /** A pair holding a shorthand path does not survive the trip: the reparse expands it. */
  lemma ShorthandPairDoesNotRoundTrip()
    ensures StringToTransportPathPair(TransportPathPairToString(TransportPathPair("usb", "0")))
         == Success(TransportPathPair("usb", "44'/194'/0'/0/0"))
  {
    ParseOfPrinted("usb", "0");
    DefaultLedgerPath();
  }

  /** Parsing is stable: printing a parsed pair and parsing again gives the same pair. */
  lemma StringRoundTrip(str: string)
    requires StringToTransportPathPair(str).Success?
    ensures StringToTransportPathPair(TransportPathPairToString(StringToTransportPathPair(str).value))
         == StringToTransportPathPair(str)
  {
    var tpp := StringToTransportPathPair(str).value;
    var raw :| str == tpp.transportType + ":" + raw && tpp.path == ConvertShortHandPaths(raw);
    ParseOfPrinted(tpp.transportType, tpp.path);
    ConvertShortHandPathsIdempotent(raw);
  }
}
