/**
 * The `Order` model's `creating` hook: just before a new order row is
 * inserted, an empty `order_code` is replaced by `ORD-<Ymd>-<SUFFIX>`, where
 * the suffix is the last six characters of `uniqid()`, upper-cased. The hook
 * runs on creation only, so an existing row's code is never regenerated.
 *
 * The clock (`now()`) and `uniqid()` are parameters.
 */
module OrderCodes {
  import opened Base

  /** A calendar date as PHP's `Ymd` format prints it. */
  datatype CivilDate = CivilDate(year: nat, month: nat, day: nat)

  predicate ValidDate(d: CivilDate)
  {
    1000 <= d.year <= 9999 && 1 <= d.month <= 12 && 1 <= d.day <= 31
  }

  function Pad4(n: nat): (s: string)
    requires n < 10000
    ensures |s| == 4 && forall i :: 0 <= i < 4 ==> IsDigit(s[i])
  {
    Pad2(n / 100) + Pad2(n % 100)
  }

  /** `now()->format('Ymd')`. */
  function FormatYmd(d: CivilDate): (s: string)
    requires ValidDate(d)
    ensures |s| == 8 && forall i :: 0 <= i < 8 ==> IsDigit(s[i])
  {
    Pad4(d.year) + Pad2(d.month) + Pad2(d.day)
  }

  predicate IsLowerHex(c: char) { IsDigit(c) || 'a' <= c <= 'f' }

  /** What `uniqid()` returns: thirteen lower-case hexadecimal digits. */
  predicate IsUniqid(u: string)
  {
    |u| == 13 && forall i :: 0 <= i < |u| ==> IsLowerHex(u[i])
  }

  /** PHP `substr($s, -6)`: the last six characters, or the whole string when it is shorter. */
  function Last6(s: string): (r: string)
    ensures |s| >= 6 ==> |r| == 6 && r == s[|s| - 6..]
    ensures |s| < 6 ==> r == s
  {
    if |s| >= 6 then s[|s| - 6..] else s
  }

  /** The generated code. */
  function GeneratedCode(today: CivilDate, uniqid: string): (code: string)
    requires ValidDate(today)
    ensures |code| == 13 + |Last6(uniqid)|
    ensures code[..4] == "ORD-" && code[4..12] == FormatYmd(today) && code[12] == '-'
  {
    "ORD-" + FormatYmd(today) + "-" + Upper(Last6(uniqid))
  }

  /** A generated code is `ORD-`, eight date digits, `-`, and six characters without lower-case letters: 19 in all. */
  lemma GeneratedCodeShape(today: CivilDate, uniqid: string)
    requires ValidDate(today) && IsUniqid(uniqid)
    ensures var code := GeneratedCode(today, uniqid);
      && |code| == 19
      && code[..4] == "ORD-" && code[12] == '-'
      && (forall i :: 4 <= i < 12 ==> IsDigit(code[i]))
      && (forall i :: 13 <= i < 19 ==> !IsLowerAscii(code[i]) && (IsDigit(code[i]) || 'A' <= code[i] <= 'F'))
      && code[4..12] == FormatYmd(today)
  {
    var code := GeneratedCode(today, uniqid);
    var suffix := Upper(Last6(uniqid));
    assert code == "ORD-" + FormatYmd(today) + "-" + suffix;
    forall i | 13 <= i < 19 ensures !IsLowerAscii(code[i]) && (IsDigit(code[i]) || 'A' <= code[i] <= 'F') {
      assert code[i] == suffix[i - 13] == UpperChar(uniqid[i - 13 + 7]);
      assert IsLowerHex(uniqid[i - 6]);
    }
  }

  /** PHP `empty()` on the attribute: unset (null), the empty string, or the string "0". */
  predicate EmptyCode(code: Option<string>)
  {
    code.None? || code.value == "" || code.value == "0"
  }

  /** The attributes of an `Order` model that is about to be inserted, as far as the hook is concerned. */
  class NewOrder {
    var orderCode: Option<string>

    constructor (code: Option<string>)
      ensures orderCode == code
    {
      orderCode := code;
    }

    /** The `creating` listener: fills in a code only when the current one is empty. */
    method Creating(today: CivilDate, uniqid: string)
      requires ValidDate(today)
      modifies this
      ensures EmptyCode(old(orderCode)) ==> orderCode == Some(GeneratedCode(today, uniqid))
      ensures !EmptyCode(old(orderCode)) ==> orderCode == old(orderCode)
    {
      if EmptyCode(orderCode) {
        orderCode := Some(GeneratedCode(today, uniqid));
      }
    }
  }

  /** The hook's result as a value, for the controllers that create orders without supplying a code. */
  function CodeAfterCreating(code: Option<string>, today: CivilDate, uniqid: string): (r: string)
    requires ValidDate(today)
    ensures !EmptyCode(code) ==> r == code.value
    ensures EmptyCode(code) ==> |r| >= 13 && r[..4] == "ORD-" && (|uniqid| >= 6 ==> |r| == 19)
  {
    if EmptyCode(code) then GeneratedCode(today, uniqid) else code.value
  }

  /** A generated code is never empty, so a second run of the hook keeps the code the first run left. */
  lemma {:induction false} CreatingIsIdempotent(code: Option<string>, today: CivilDate, later: CivilDate, uniqid: string, uniqid2: string)
    requires ValidDate(today) && ValidDate(later)
    ensures var once := CodeAfterCreating(code, today, uniqid);
            CodeAfterCreating(Some(once), later, uniqid2) == once
  {
    var once := CodeAfterCreating(code, today, uniqid);
    if EmptyCode(code) {
      assert once[..4] == "ORD-";
      assert once != "" && once != "0";
    }
  }
}
