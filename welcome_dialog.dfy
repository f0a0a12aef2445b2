/** The welcome dialog (src/components/WelcomeDialog.tsx): on mount it opens unless it was
    closed less than twelve hours ago, judged from a timestamp kept in local storage as the
    decimal text of `Date.now()` and read back with `parseInt`. */
module WelcomeDialog {
  import opened Numeric

  const StorageKey: string := "welcome-dialog-last-shown"

  /** `12 * 60 * 60 * 1000` milliseconds. */
  const TwelveHours: int := 12 * 60 * 60 * 1000

  /** The characters `parseInt` skips before the number: the ECMAScript white space and line
      terminators (StrWhiteSpaceChar). */
  predicate IsSpace(c: char)
  {
    || c == ' ' || c == '\t' || c == '\n' || c == '\r'
    || c == '\U{000B}' || c == '\U{000C}' || c == '\U{00A0}' || c == '\U{FEFF}'
    || c == '\U{1680}' || ('\U{2000}' <= c <= '\U{200A}')
    || c == '\U{2028}' || c == '\U{2029}' || c == '\U{202F}' || c == '\U{205F}' || c == '\U{3000}'
  }

  /** Drop the leading white space. */
  function TrimStart(s: string): (r: string)
    ensures |r| <= |s| && r == s[|s| - |r|..]
    ensures forall i :: 0 <= i < |s| - |r| ==> IsSpace(s[i])
    ensures r == [] || !IsSpace(r[0])
  {
    if s != [] && IsSpace(s[0]) then TrimStart(s[1..]) else s
  }

  /** The value of `c` as a digit in base `radix` (10 or 16), if it is one. */
  function DigitValue(c: char, radix: nat): (d: Option<nat>)
    ensures d.Some? ==> d.value < radix
  {
    var v: int :=
      if '0' <= c <= '9' then c as int - '0' as int
      else if 'a' <= c <= 'z' then c as int - 'a' as int + 10
      else if 'A' <= c <= 'Z' then c as int - 'A' as int + 10
      else radix;
    if 0 <= v < radix then Some(v) else None
  }

  /** The length of the longest prefix of `s` made of digits of base `radix`. */
  function DigitRun(s: string, radix: nat): (n: nat)
    ensures n <= |s|
    ensures forall i :: 0 <= i < n ==> DigitValue(s[i], radix).Some?
    ensures n < |s| ==> DigitValue(s[n], radix).None?
  {
    if s != [] && DigitValue(s[0], radix).Some? then 1 + DigitRun(s[1..], radix) else 0
  }

  /** The number a string of digits of base `radix` denotes, most significant digit first. */
  function Value(s: string, radix: nat): nat
    requires forall i :: 0 <= i < |s| ==> DigitValue(s[i], radix).Some?
  {
    if s == [] then 0
    else Value(s[..|s| - 1], radix) * radix + DigitValue(s[|s| - 1], radix).value
  }

  /** `parseInt(s)` with no radix: skip white space, take an optional sign, read hexadecimal
      after a `0x` or `0X` prefix and decimal otherwise, and stop at the first character that
      is not a digit. `None` is NaN, the result when no digit is read. */
  function ParseInt(s: string): Option<int>
  {
    var t := TrimStart(s);
    var sign := if t != [] && t[0] == '-' then -1 else 1;
    var u := if t != [] && (t[0] == '+' || t[0] == '-') then t[1..] else t;
    var hex := |u| >= 2 && u[0] == '0' && (u[1] == 'x' || u[1] == 'X');
    var radix := if hex then 16 else 10;
    var digits := if hex then u[2..] else u;
    var n := DigitRun(digits, radix);
    if n == 0 then None else Some(sign * Value(digits[..n], radix))
  }

  function DigitChar(d: nat): (c: char)
    requires d < 10
    ensures DigitValue(c, 10) == Some(d)
  {
    ('0' as int + d) as char
  }

  /** The decimal digits of `n`, without leading zeros. */
  function Digits(n: nat): (s: string)
    ensures s != []
    ensures forall i :: 0 <= i < |s| ==> DigitValue(s[i], 10).Some?
  {
    if n < 10 then [DigitChar(n)] else Digits(n / 10) + [DigitChar(n % 10)]
  }

  /** `n.toString()` for an integral number: the decimal digits, after a minus sign when `n` is
      negative. */
  function ToDecimal(n: int): (s: string)
    ensures s != [] && !IsSpace(s[0])
  {
    if n < 0 then "-" + Digits(-n) else Digits(n)
  }

  /** Reading the digits back gives the number. */
  lemma {:induction false} ValueDigits(n: nat)
    ensures Value(Digits(n), 10) == n
  {
    var s := Digits(n);
    if n >= 10 {
      ValueDigits(n / 10);
      assert s[..|s| - 1] == Digits(n / 10);
    }
  }

  /** `parseInt` undoes `toString`: a stored timestamp reads back as the same number. */
  lemma ParseToDecimal(n: int)
    ensures ParseInt(ToDecimal(n)) == Some(n)
  {
    var s := ToDecimal(n);
    var d := Digits(if n < 0 then -n else n);
    assert TrimStart(s) == s;
    var u := if n < 0 then s[1..] else s;
    assert u == d;
    assert DigitValue(d[0], 10).Some?;
    if |d| >= 2 {
      assert DigitValue(d[1], 10).Some?;
    }
    assert d[..|d|] == d;
    ValueDigits(if n < 0 then -n else n);
  }

  /** The mount effect's test: `!lastShown || now - parseInt(lastShown) > TWELVE_HOURS`. An
      absent or empty entry opens the dialog; a non-empty entry that reads as NaN never does,
      since every comparison with NaN is false. */
  function ShouldOpen(lastShown: Option<string>, now: int): (b: bool)
    ensures lastShown == None || lastShown == Some("") ==> b
    ensures lastShown.Some? && lastShown.value != [] && ParseInt(lastShown.value).None? ==> !b
    ensures lastShown.Some? && ParseInt(lastShown.value).Some? ==>
              (b <==> now - ParseInt(lastShown.value).value > TwelveHours)
  {
    lastShown.None? || lastShown.value == [] ||
    (ParseInt(lastShown.value).Some? && now - ParseInt(lastShown.value).value > TwelveHours)
  }

  /** After the dialog is closed at `closedAt`, a later mount reopens it exactly when more than
      twelve hours have passed; exactly twelve hours later it stays closed. */
  lemma ReopenAfterClose(closedAt: int, now: int)
    ensures ShouldOpen(Some(ToDecimal(closedAt)), now) <==> now - closedAt > TwelveHours
  {
    ParseToDecimal(closedAt);
  }

  /** `localStorage.getItem`: `null` for a missing key. */
  function GetItem(storage: map<string, string>, key: string): (v: Option<string>)
    ensures v.Some? <==> key in storage
    ensures v.Some? ==> v.value == storage[key]
  {
    if key in storage then Some(storage[key]) else None
  }

  class Dialog {
    var open: bool
    var storage: map<string, string>  // the page's local storage

    /** `useState(false)` against the storage the page finds. */
    constructor (storage: map<string, string>)
      ensures !open && this.storage == storage
    {
      open := false;
      this.storage := storage;
    }

    /** The mount effect at clock reading `now`: open the dialog when the test passes,
        otherwise leave it as it is. Storage is only read. */
    method OnMount(now: int)
      modifies this
      ensures open <==> old(open) || ShouldOpen(GetItem(storage, StorageKey), now)
      ensures storage == old(storage)
    {
      if ShouldOpen(GetItem(storage, StorageKey), now) {
        open := true;
      }
    }

    /** `handleClose` at clock reading `now`: store the time and close. A mount within the next
        twelve hours keeps the dialog closed, and one later than that opens it. */
    method HandleClose(now: int)
      modifies this
      ensures storage == old(storage)[StorageKey := ToDecimal(now)]
      ensures !open
      ensures forall later: int :: ShouldOpen(GetItem(storage, StorageKey), later) <==> later - now > TwelveHours
    {
      storage := storage[StorageKey := ToDecimal(now)];
      open := false;
      forall later: int
        ensures ShouldOpen(GetItem(storage, StorageKey), later) <==> later - now > TwelveHours
      {
        ReopenAfterClose(now, later);
      }
    }
  }
}
