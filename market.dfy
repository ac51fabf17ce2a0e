/**
 * `identify_market`: classify a security identifier by the two patterns
 * `^\d{6}\.(SH|SZ)$` (domestic A-share) and `^\d{5,6}\.HK$` (Hong Kong),
 * with Python `re` semantics for `str` patterns:
 *   - `\d` matches any Unicode decimal digit (general category Nd), not only 0-9;
 *   - `$` without MULTILINE matches at the end of the string and also just
 *     before a newline that is the string's last character.
 */
module Market {
  import opened Wrappers

  datatype Market = A | HK

  /** The `ValueError` that `identify_market` raises. */
  datatype Error = InvalidIdentifier

  datatype Exchange = SH | SZ

  /** `n` is one of the ten code points from `zero` up. */
  predicate Run(n: int, zero: int) {
    zero <= n < zero + 10
  }

  /**
   * `\d`: a character of Unicode category Nd. Nd is made of runs of ten
   * digits; these are their zeros in Unicode 15.0/15.1 (the Unicode data of
   * Python 3.12 and 3.13), the five runs from U+1D7CE being the mathematical
   * digit styles.
   */
  predicate IsDecimalDigit(c: char) {
    var n := c as int;
    || Run(n, 0x0030) || Run(n, 0x0660) || Run(n, 0x06F0) || Run(n, 0x07C0) || Run(n, 0x0966)
    || Run(n, 0x09E6) || Run(n, 0x0A66) || Run(n, 0x0AE6) || Run(n, 0x0B66) || Run(n, 0x0BE6)
    || Run(n, 0x0C66) || Run(n, 0x0CE6) || Run(n, 0x0D66) || Run(n, 0x0DE6) || Run(n, 0x0E50)
    || Run(n, 0x0ED0) || Run(n, 0x0F20) || Run(n, 0x1040) || Run(n, 0x1090) || Run(n, 0x17E0)
    || Run(n, 0x1810) || Run(n, 0x1946) || Run(n, 0x19D0) || Run(n, 0x1A80) || Run(n, 0x1A90)
    || Run(n, 0x1B50) || Run(n, 0x1BB0) || Run(n, 0x1C40) || Run(n, 0x1C50) || Run(n, 0xA620)
    || Run(n, 0xA8D0) || Run(n, 0xA900) || Run(n, 0xA9D0) || Run(n, 0xA9F0) || Run(n, 0xAA50)
    || Run(n, 0xABF0) || Run(n, 0xFF10) || Run(n, 0x104A0) || Run(n, 0x10D30) || Run(n, 0x11066)
    || Run(n, 0x110F0) || Run(n, 0x11136) || Run(n, 0x111D0) || Run(n, 0x112F0) || Run(n, 0x11450)
    || Run(n, 0x114D0) || Run(n, 0x11650) || Run(n, 0x116C0) || Run(n, 0x11730) || Run(n, 0x118E0)
    || Run(n, 0x11950) || Run(n, 0x11C50) || Run(n, 0x11D50) || Run(n, 0x11DA0) || Run(n, 0x11F50)
    || Run(n, 0x16A60) || Run(n, 0x16AC0) || Run(n, 0x16B50) || Run(n, 0x1D7CE) || Run(n, 0x1D7D8)
    || Run(n, 0x1D7E2) || Run(n, 0x1D7EC) || Run(n, 0x1D7F6) || Run(n, 0x1E140) || Run(n, 0x1E2F0)
    || Run(n, 0x1E4F0) || Run(n, 0x1E950) || Run(n, 0x1FBF0)
  }

  predicate AllDigits(s: string) {
    forall i :: 0 <= i < |s| ==> IsDecimalDigit(s[i])
  }

  /** What `$` lets a match end at: the whole string, less one final newline. */
  function BeforeEnd(s: string): string {
    if |s| > 0 && s[|s| - 1] == '\n' then s[..|s| - 1] else s
  }

  /** `\d{6}\.(SH|SZ)` spanning all of `b`. */
  predicate IsDomesticBody(b: string) {
    |b| == 9 && AllDigits(b[..6]) && b[6] == '.' && (b[7..] == "SH" || b[7..] == "SZ")
  }

  /** `\d{5,6}\.HK` spanning all of `b`. */
  predicate IsHongKongBody(b: string) {
    (|b| == 8 || |b| == 9) && AllDigits(b[..|b| - 3]) && b[|b| - 3..] == ".HK"
  }

  /** `identify_market`: 'A', 'HK', or the `ValueError`. */
  function IdentifyMarket(code: string): (r: Result<Market, Error>)
    ensures r.Ok? ==> var b := BeforeEnd(code);
      (|b| == 8 || |b| == 9) && AllDigits(b[..|b| - 3]) && b[|b| - 3] == '.'
    ensures r == Ok(A) ==> var b := BeforeEnd(code); |b| == 9 && (b[7..] == "SH" || b[7..] == "SZ")
    ensures r == Ok(HK) ==> var b := BeforeEnd(code); b[|b| - 2..] == "HK"
  {
    var b := BeforeEnd(code);
    if IsDomesticBody(b) then Ok(A)
    else if IsHongKongBody(b) then Ok(HK)
    else Err(InvalidIdentifier)
  }

  // ---------------------------------------------------------------------------
  // The identifiers the patterns accept, spelled out

  function ExchangeName(e: Exchange): string {
    match e
    case SH => "SH"
    case SZ => "SZ"
  }

  function Tail(newline: bool): string {
    if newline then "\n" else ""
  }

  /** A domestic identifier: six digits, a dot, the exchange, and possibly one final newline. */
  function DomesticSpelling(digits: string, e: Exchange, newline: bool): string {
    digits + "." + ExchangeName(e) + Tail(newline)
  }

  /** A Hong Kong identifier: five or six digits, `.HK`, and possibly one final newline. */
  function HongKongSpelling(digits: string, newline: bool): string {
    digits + ".HK" + Tail(newline)
  }

  ghost predicate IsDomesticCode(code: string) {
    exists digits, e, newline :: |digits| == 6 && AllDigits(digits) && code == DomesticSpelling(digits, e, newline)
  }

  ghost predicate IsHongKongCode(code: string) {
    exists digits, newline :: (|digits| == 5 || |digits| == 6) && AllDigits(digits) && code == HongKongSpelling(digits, newline)
  }

  lemma BeforeEndOfSpelling(body: string, newline: bool)
    requires |body| > 0 && body[|body| - 1] != '\n'
    ensures BeforeEnd(body + Tail(newline)) == body
  {
    if newline {
      assert (body + "\n")[..|body|] == body;
    }
  }

  /** `identify_market` returns 'A' exactly for six digits followed by `.SH` or `.SZ`. */
  lemma DomesticExactly(code: string)
    ensures IdentifyMarket(code) == Ok(A) <==> IsDomesticCode(code)
  {
    var b := BeforeEnd(code);
    if IsDomesticBody(b) {
      var e := if b[7..] == "SH" then SH else SZ;
      var newline := |code| > 0 && code[|code| - 1] == '\n';
      assert b == b[..6] + "." + ExchangeName(e);
      assert code == b + Tail(newline);
      assert code == DomesticSpelling(b[..6], e, newline);
    }
    if IsDomesticCode(code) {
      var digits, e, newline :| |digits| == 6 && AllDigits(digits) && code == DomesticSpelling(digits, e, newline);
      var body := digits + "." + ExchangeName(e);
      assert code == body + Tail(newline);
      BeforeEndOfSpelling(body, newline);
      assert body[..6] == digits && body[6] == '.' && body[7..] == ExchangeName(e);
    }
  }

  /** `identify_market` returns 'HK' exactly for five or six digits followed by `.HK`. */
  lemma HongKongExactly(code: string)
    ensures IdentifyMarket(code) == Ok(HK) <==> IsHongKongCode(code)
  {
    if IdentifyMarket(code) == Ok(HK) {
      HongKongSpelled(code);
    }
    if IsHongKongCode(code) {
      var digits, newline :| (|digits| == 5 || |digits| == 6) && AllDigits(digits) && code == HongKongSpelling(digits, newline);
      HongKongRecognised(digits, newline);
    }
  }

  /** A Hong Kong body, possibly followed by one newline, is a Hong Kong spelling. */
  lemma HongKongSpelled(code: string)
    requires IsHongKongBody(BeforeEnd(code))
    ensures IsHongKongCode(code)
  {
    var b := BeforeEnd(code);
    var newline := |code| > 0 && code[|code| - 1] == '\n';
    assert b == b[..|b| - 3] + ".HK";
    assert code == b + Tail(newline);
    assert code == HongKongSpelling(b[..|b| - 3], newline);
  }

  /** Every Hong Kong spelling is classified 'HK'. */
  lemma HongKongRecognised(digits: string, newline: bool)
    requires (|digits| == 5 || |digits| == 6) && AllDigits(digits)
    ensures IdentifyMarket(HongKongSpelling(digits, newline)) == Ok(HK)
  {
    var body := digits + ".HK";
    assert HongKongSpelling(digits, newline) == body + Tail(newline);
    BeforeEndOfSpelling(body, newline);
    assert body[..|body| - 3] == digits;
    assert body[|body| - 3..] == ".HK";
    assert IsHongKongBody(body);
    if |body| == 9 {
      assert body[7] == 'H';
      assert body[7..][0] == 'H';
    }
  }

  /** No identifier is both; every other string raises, so the result is only ever 'A' or 'HK'. */
  lemma OtherwiseInvalid(code: string)
    ensures !(IsDomesticCode(code) && IsHongKongCode(code))
    ensures IdentifyMarket(code) == Err(InvalidIdentifier) <==> !IsDomesticCode(code) && !IsHongKongCode(code)
  {
    DomesticExactly(code);
    HongKongExactly(code);
  }

  lemma Examples()
    ensures IdentifyMarket("000001.SZ") == Ok(A)
    ensures IdentifyMarket("600519.SH\n") == Ok(A)
    ensures IdentifyMarket("01810.HK") == Ok(HK)
    ensures IdentifyMarket("١٢٣٤٥.HK") == Ok(HK)
    ensures IdentifyMarket("000001.SZ\n\n") == Err(InvalidIdentifier)
    ensures IdentifyMarket("0001.HK") == Err(InvalidIdentifier)
    ensures IdentifyMarket("000001.sz") == Err(InvalidIdentifier)
  {
    assert "000001.SZ"[..6] == "000001";
    assert "600519.SH"[..6] == "600519";
    assert BeforeEnd("600519.SH\n") == "600519.SH";
    assert BeforeEnd("000001.SZ\n\n") == "000001.SZ\n";
  }
}
