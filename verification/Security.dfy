/** Identity extraction from the headers nginx forwards
    (controller/app/core/security.py). */
module Security {
  import opened Wrappers

  // ---------- the CN pattern ----------

  predicate IsSeparator(c: char) {
    c == ',' || c == '/'
  }

  /** `str.strip` whitespace among the Latin-1 characters a header can hold. */
  predicate IsSpace(c: char) {
    var n := c as int;
    9 <= n <= 13 || 28 <= n <= 32 || n == 0x85 || n == 0xa0
  }

  const CN := "CN="

  /** The pattern `CN=([^,/]+)` matches at `p`. */
  predicate MatchAt(s: string, p: nat) {
    p + 3 < |s| && s[p..p + 3] == CN && !IsSeparator(s[p + 3])
  }

  /** The least position at or after `p` where the pattern matches. */
  function Search(s: string, p: nat): (r: Option<nat>)
    ensures r.None? ==> forall k: nat :: p <= k ==> !MatchAt(s, k)
    ensures r.Some? ==> p <= r.value && MatchAt(s, r.value)
    ensures r.Some? ==> forall k: nat :: p <= k < r.value ==> !MatchAt(s, k)
    decreases |s| - p
  {
    if |s| <= p then None
    else if MatchAt(s, p) then Some(p)
    else Search(s, p + 1)
  }

  /** The end of the longest separator-free run starting at `i`. */
  function RunEnd(s: string, i: nat): (e: nat)
    requires i <= |s|
    ensures i <= e <= |s|
    ensures forall k :: i <= k < e ==> !IsSeparator(s[k])
    ensures e == |s| || IsSeparator(s[e])
    decreases |s| - i
  {
    if i == |s| || IsSeparator(s[i]) then i else RunEnd(s, i + 1)
  }

  function StripLeft(s: string): string {
    if s != "" && IsSpace(s[0]) then StripLeft(s[1..]) else s
  }

  function StripRight(s: string): string {
    if s != "" && IsSpace(s[|s| - 1]) then StripRight(s[..|s| - 1]) else s
  }

  function Strip(s: string): string {
    StripRight(StripLeft(s))
  }

  /** The characters `str.strip` removes. */
  predicate IsBlank(c: char) {
    c as int in {9, 10, 11, 12, 13, 28, 29, 30, 31, 32, 133, 160}
  }

  ghost predicate BlankBetween(text: string, i: nat, j: nat)
    requires j <= |text|
  {
    forall k :: i <= k < j ==> IsBlank(text[k])
  }

  /** What is between `i` and `j` is the text without the blanks at its ends. */
  ghost predicate TrimsAt(text: string, i: nat, j: nat) {
    && i <= j <= |text| && BlankBetween(text, 0, i) && BlankBetween(text, j, |text|)
    && (i < j ==> !IsBlank(text[i]) && !IsBlank(text[j - 1]))
  }

  ghost predicate TrimsTo(text: string, core: string) {
    exists i: nat, j: nat :: TrimsAt(text, i, j) && core == text[i..j]
  }

  lemma {:induction false} StripLeftIs(s: string) returns (i: nat)
    ensures i <= |s| && StripLeft(s) == s[i..] && BlankBetween(s, 0, i)
    ensures i < |s| ==> !IsBlank(s[i])
    decreases |s|
  {
    i := 0;
    if s != "" && IsSpace(s[0]) {
      i := StripLeftIs(s[1..]);
      i := i + 1;
      assert forall k :: 1 <= k < i ==> s[k] == s[1..][k - 1];
    }
  }

  lemma {:induction false} StripRightIs(s: string) returns (j: nat)
    ensures j <= |s| && StripRight(s) == s[..j] && BlankBetween(s, j, |s|)
    ensures j > 0 ==> !IsBlank(s[j - 1])
    decreases |s|
  {
    j := |s|;
    if s != "" && IsSpace(s[|s| - 1]) {
      j := StripRightIs(s[..|s| - 1]);
    }
  }

  /** Stripping takes exactly the blanks off both ends. */
  lemma StripTrims(s: string)
    ensures TrimsTo(s, Strip(s))
  {
    var left := StripLeft(s);
    var i := StripLeftIs(s);
    var j := StripRightIs(left);
    assert Strip(s) == left[..j] == s[i..i + j];
    assert forall k :: i <= k < |s| ==> s[k] == left[k - i];
    assert TrimsAt(s, i, i + j);
  }

  lemma TrimIsUnique(s: string, a: string, b: string)
    requires TrimsTo(s, a) && TrimsTo(s, b)
    ensures a == b
  {
    var i: nat, j: nat :| TrimsAt(s, i, j) && a == s[i..j];
    var k: nat, l: nat :| TrimsAt(s, k, l) && b == s[k..l];
    hide IsBlank;
    assert i < j ==> k <= i && j <= l;
    assert k < l ==> i <= k && l <= j;
  }

  function ExtractCn(dn: string): Option<string> {
    match Search(dn, 0)
    case None => None
    case Some(p) => Some(Strip(dn[p + 3..RunEnd(dn, p + 3)]))
  }

  // ---------- a distinguished name printed as section 2 of RFC 2253 ----------

  datatype Attribute = Attribute(kind: string, value: string)

  function PrintAttribute(a: Attribute): string {
    a.kind + "=" + a.value
  }

  function PrintDn(dn: seq<Attribute>): string {
    if dn == [] then ""
    else if |dn| == 1 then PrintAttribute(dn[0])
    else PrintAttribute(dn[0]) + "," + PrintDn(dn[1..])
  }

  /** The text holds no `CN=` with something extractable after it. A `CN=` at
      the very end (a decoy with an empty run) is allowed. */
  ghost predicate Inert(text: string) {
    forall p: nat :: !MatchAt(text, p)
  }

  lemma MatchDoesNotCrossAComma(a: string, b: string, p: nat)
    requires MatchAt(a + "," + b, p)
    ensures MatchAt(a, p) || (p > |a| && MatchAt(b, p - |a| - 1))
  {
    var s := a + "," + b;
    assert s[|a|] == ',';
    assert s[p..p + 3][0] == s[p] && s[p..p + 3][1] == s[p + 1] && s[p..p + 3][2] == s[p + 2];
    if p + 3 < |a| {
      assert s[p..p + 3] == a[p..p + 3];
    } else {
      assert p > |a|;
      var k := p - |a| - 1;
      assert s[p..p + 3] == b[k..k + 3];
      assert s[p + 3] == b[k + 3];
    }
  }

  lemma MatchMoves(a: string, b: string, p: nat)
    requires MatchAt(b, p)
    ensures MatchAt(a + "," + b, |a| + 1 + p)
  {
    var s, k := a + "," + b, |a| + 1 + p;
    assert s[k..k + 3] == b[p..p + 3];
    assert s[k + 3] == b[p + 3];
  }

  lemma RunEndIs(s: string, i: nat, e: nat)
    requires i <= e <= |s|
    requires forall k :: i <= k < e ==> !IsSeparator(s[k])
    requires e == |s| || IsSeparator(s[e])
    ensures RunEnd(s, i) == e
    decreases e - i
  {
    if i < e {
      RunEndIs(s, i + 1, e);
    }
  }

  lemma {:induction false} SearchIs(s: string, from: nat, k: nat)
    requires from <= k && MatchAt(s, k)
    requires forall j: nat :: from <= j < k ==> !MatchAt(s, j)
    ensures Search(s, from) == Some(k)
    decreases k - from
  {
    hide MatchAt;
    assert k < |s| by { MatchFits(s, k); }
    if from < k {
      SearchIs(s, from + 1, k);
    }
  }

  lemma MatchFits(s: string, k: nat)
    requires MatchAt(s, k)
    ensures k + 3 < |s|
  {
  }

  lemma {:induction false} SearchSkipsInertHead(a: string, b: string)
    requires Inert(a) && Search(b, 0).Some?
    ensures Search(a + "," + b, 0) == Some(|a| + 1 + Search(b, 0).value)
  {
    var s, p := a + "," + b, Search(b, 0).value;
    hide MatchAt, Search;
    MatchMoves(a, b, p);
    forall j: nat | j < |a| + 1 + p ensures !MatchAt(s, j) {
      if MatchAt(s, j) {
        MatchDoesNotCrossAComma(a, b, j);
      }
    }
    SearchIs(s, 0, |a| + 1 + p);
  }

  lemma RunEndMoves(a: string, b: string, i: nat)
    requires i <= |b|
    ensures RunEnd(a + b, |a| + i) == |a| + RunEnd(b, i)
  {
    var s, e := a + b, RunEnd(b, i);
    forall k | |a| + i <= k < |a| + e ensures !IsSeparator(s[k]) {
      assert s[k] == b[k - |a|];
    }
    assert |a| + e < |s| ==> s[|a| + e] == b[e];
    RunEndIs(s, |a| + i, |a| + e);
  }

  lemma RunAfterHead(a: string, b: string, i: nat)
    requires i <= |b|
    ensures var s, k := a + "," + b, |a| + 1 + i;
      k <= |s| && s[k..RunEnd(s, k)] == b[i..RunEnd(b, i)]
  {
    var e := RunEnd(b, i);
    hide RunEnd;
    assert a + "," + b == (a + ",") + b;
    RunEndMoves(a + ",", b, i);
    SliceMoves(a + ",", b, i, e);
  }

  /** An inert head is skipped as if it were not there. */
  lemma {:induction false} InertHeadIsSkipped(a: string, b: string)
    requires Inert(a) && Search(b, 0).Some?
    ensures Search(a + "," + b, 0).Some?
    ensures ExtractCn(a + "," + b) == ExtractCn(b)
  {
    var p := Search(b, 0).value;
    assert p + 3 < |b| by { MatchFits(b, p); }
    hide Search, RunEnd, Strip, MatchAt;
    SearchSkipsInertHead(a, b);
    RunAfterHead(a, b, p + 3);
  }

  lemma SliceMoves(a: string, b: string, i: nat, j: nat)
    requires i <= j <= |b|
    ensures (a + b)[|a| + i..|a| + j] == b[i..j]
  {
  }

  lemma ExtractAtStart(value: string, tail: string)
    requires value != "" && forall k :: 0 <= k < |value| ==> !IsSeparator(value[k])
    requires tail == "" || tail[0] == ','
    ensures Search(CN + value + tail, 0).Some?
    ensures ExtractCn(CN + value + tail) == Some(Strip(value))
  {
    var s := CN + value + tail;
    assert s[0..3] == CN && s[3] == value[0];
    assert MatchAt(s, 0);
    forall k | 3 <= k < 3 + |value| ensures !IsSeparator(s[k]) {
      assert s[k] == value[k - 3];
    }
    RunEndIs(s, 3, 3 + |value|);
    assert s[3..3 + |value|] == value;
  }

  /** Printing then extracting returns the first printed CN. Attributes in front
      of it may even be `CN=` with an empty value: those are skipped. */
  lemma {:induction false} CnRoundTrip(front: seq<Attribute>, value: string, back: seq<Attribute>)
    requires forall i :: 0 <= i < |front| ==> Inert(PrintAttribute(front[i]))
    requires value != "" && forall k :: 0 <= k < |value| ==> !IsSeparator(value[k])
    ensures Search(PrintDn(front + [Attribute("CN", value)] + back), 0).Some?
    ensures ExtractCn(PrintDn(front + [Attribute("CN", value)] + back)) == Some(Strip(value))
    decreases |front|
  {
    var dn := front + [Attribute("CN", value)] + back;
    if front == [] {
      assert dn[1..] == back;
      var tail := if back == [] then "" else "," + PrintDn(back);
      assert PrintDn(dn) == CN + value + tail;
      ExtractAtStart(value, tail);
    } else {
      var rest := front[1..] + [Attribute("CN", value)] + back;
      assert dn[1..] == rest;
      CnRoundTrip(front[1..], value, back);
      InertHeadIsSkipped(PrintAttribute(front[0]), PrintDn(rest));
    }
  }

  // ---------- the certificate serial ----------

  predicate IsHex(c: char) {
    '0' <= c <= '9' || 'a' <= c <= 'f' || 'A' <= c <= 'F'
  }

  type HexText = s: string | forall i :: 0 <= i < |s| ==> IsHex(s[i])

  function HexValue(c: char): (v: nat)
    requires IsHex(c)
    ensures v < 16
  {
    if '0' <= c <= '9' then c as int - '0' as int
    else if 'a' <= c <= 'f' then c as int - 'a' as int + 10
    else c as int - 'A' as int + 10
  }

  function HexDigit(v: nat): (c: char)
    requires v < 16
    ensures IsHex(c) && HexValue(c) == v
  {
    if v < 10 then ('0' as int + v) as char else ('a' as int + v - 10) as char
  }

  /** `int(text, 16)` on plain hex digits. */
  function ParseHex(text: HexText): nat {
    if text == "" then 0
    else 16 * ParseHex(text[..|text| - 1]) + HexValue(text[|text| - 1])
  }

  const UPPER := "0123456789ABCDEF"
  const LOWER := "0123456789abcdef"

  /** `n` in the given sixteen digits. */
  function PrintIn(digits: string, n: nat): string
    requires |digits| == 16
  {
    if n < 16 then [digits[n]] else PrintIn(digits, n / 16) + [digits[n % 16]]
  }

  predicate IsDigit(c: char, v: nat) {
    v < 16 && (c == UPPER[v] || c == LOWER[v])
  }

  /** `text` is a hexadecimal numeral for `n`, in either case or both. */
  predicate IsNumeral(text: string, n: nat)
    decreases |text|
  {
    if text == "" then n == 0 else IsDigit(text[|text| - 1], n % 16) && IsNumeral(text[..|text| - 1], n / 16)
  }

  lemma DigitOf(v: nat, c: char)
    requires IsDigit(c, v)
    ensures IsHex(c) && HexValue(c) == v
  {
  }

  lemma DigitIs(c: char)
    requires IsHex(c)
    ensures IsDigit(c, HexValue(c))
  {
  }

  /** Parsing reads every numeral, in any mixture of cases and with any leading
      zeros, as the number it is a numeral for. */
  lemma {:induction false} ParsesNumerals(text: HexText, n: nat)
    ensures ParseHex(text) == n <==> IsNumeral(text, n)
    decreases |text|
  {
    if text != "" {
      var front, c := text[..|text| - 1], text[|text| - 1];
      ParsesNumerals(front, n / 16);
      DigitIs(c);
      hide IsHex, IsDigit, HexValue;
      if IsNumeral(text, n) {
        DigitOf(n % 16, c);
      }
    }
  }

  /** Printing with either table gives a numeral, of hex digits. */
  lemma {:induction false} PrintedIsNumeral(digits: string, n: nat)
    requires digits == UPPER || digits == LOWER
    ensures PrintIn(digits, n) != "" && forall i :: 0 <= i < |PrintIn(digits, n)| ==> IsHex(PrintIn(digits, n)[i])
    ensures IsNumeral(PrintIn(digits, n), n)
  {
    var text := PrintIn(digits, n);
    if n < 16 {
      DigitOf(n, digits[n]);
      assert text[..0] == "";
    } else {
      PrintedIsNumeral(digits, n / 16);
      DigitOf(n % 16, digits[n % 16]);
      assert text[..|text| - 1] == PrintIn(digits, n / 16);
    }
  }

  /** `f"{n:x}"`. */
  function PrintHex(n: nat): (text: HexText)
    ensures text != ""
  {
    if n < 16 then [HexDigit(n)] else PrintHex(n / 16) + [HexDigit(n % 16)]
  }

  /** The audit targets print serials in lower case. */
  lemma {:induction false} PrintsLowerCase(n: nat)
    ensures PrintHex(n) == PrintIn(LOWER, n)
  {
    assert forall v: nat :: v < 16 ==> HexDigit(v) == LOWER[v];
    if n >= 16 {
      PrintsLowerCase(n / 16);
    }
  }

  lemma {:induction false} SerialRoundTrip(n: nat)
    ensures ParseHex(PrintHex(n)) == n
  {
    var text := PrintHex(n);
    if n < 16 {
      assert text[..|text| - 1] == "";
    } else {
      SerialRoundTrip(n / 16);
      assert text[..|text| - 1] == PrintHex(n / 16);
    }
  }

  function Lower(c: char): (l: char)
    requires IsHex(c)
    ensures IsHex(l)
  {
    if 'A' <= c <= 'F' then (c as int - 'A' as int + 'a' as int) as char else c
  }

  /** Lower case, without leading zeros; a zero is one `0`. */
  function Canonical(text: HexText): HexText
    requires text != ""
  {
    var last := [Lower(text[|text| - 1])];
    if |text| == 1 then last
    else
      var front := Canonical(text[..|text| - 1]);
      if front == "0" then last else front + last
  }

  lemma LowerIsDigit(c: char)
    requires IsHex(c)
    ensures Lower(c) == HexDigit(HexValue(c))
  {
  }

  lemma {:induction false} PrintOfParse(text: HexText)
    requires text != ""
    ensures PrintHex(ParseHex(text)) == Canonical(text)
  {
    var front := text[..|text| - 1];
    LowerIsDigit(text[|text| - 1]);
    if |text| > 1 {
      PrintOfParse(front);
      var n := ParseHex(front);
      var v := HexValue(text[|text| - 1]);
      assert (16 * n + v) / 16 == n && (16 * n + v) % 16 == v;
      assert PrintHex(0) == "0";
      if n != 0 {
        assert Canonical(front) != "0" by {
          SerialRoundTrip(n);
          SerialRoundTrip(0);
        }
      }
    }
  }

  /** Two serial texts name the same certificate exactly when they agree up to
      case and leading zeros, so a cache lookup does not depend on formatting. */
  lemma SameSerialIffSameCanonicalText(a: HexText, b: HexText)
    requires a != "" && b != ""
    ensures ParseHex(a) == ParseHex(b) <==> Canonical(a) == Canonical(b)
  {
    PrintOfParse(a);
    PrintOfParse(b);
    SerialRoundTrip(ParseHex(a));
    SerialRoundTrip(ParseHex(b));
  }

  // ---------- headers to identity ----------

  /** X-Client-Serial: absent, plain hex as nginx writes it, or a text that
      `int(raw, 16)` refuses. */
  datatype SerialHeader = NoSerial | HexSerial(text: HexText) | Unparsable

  datatype Headers = Headers(verify: Option<string>, dn: Option<string>, serial: SerialHeader)

  datatype Identity = Identity(commonName: string, serial: Option<nat>) {
    predicate IsController() { "controller." <= commonName }
    predicate IsNode() { "pi-" <= commonName }
  }

  function ParseSerial(h: SerialHeader): Option<nat> {
    match h
    case HexSerial(text) => if text == "" then None else Some(ParseHex(text))
    case _ => None
  }

  /** The labels of `mtls_auth_total`. */
  datatype AuthOutcome = Accepted | MissingHeaders | VerifyFailure | CnParseFailure | RevokedSerial

  datatype Authentication = Refused(why: AuthOutcome) | Known(id: Identity)

  function Authenticate(h: Headers): Authentication {
    if h.verify.None? || h.dn.None? then Refused(MissingHeaders)
    else if h.verify.value != "SUCCESS" then Refused(VerifyFailure)
    else match ExtractCn(h.dn.value)
         case None => Refused(CnParseFailure)
         case Some(cn) => Known(Identity(cn, ParseSerial(h.serial)))
  }

  /** `cn.split(".")[0]`: the name up to its first dot, or all of it. */
  function FirstLabel(cn: string): (l: string)
    ensures l <= cn && '.' !in l
    ensures l == cn || cn[|l|] == '.'
  {
    if cn == "" || cn[0] == '.' then "" else [cn[0]] + FirstLabel(cn[1..])
  }
}
