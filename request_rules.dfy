/**
  The request values the validators look at, and the framework validation rules
  the core's rule lists use (`required`, `nullable`, `integer`, `min`, `string`,
  `max`, `boolean`, `file`, `image`, `exists`, `array`), each as a predicate.
 */
module RequestRules {
  import opened Options

  /** One value of a request, as the validator receives it. */
  datatype Input =
    | Missing                              // the key was not sent
    | Null                                 // null; the framework also turns an empty string into null
    | Num(n: int)                          // a JSON integer
    | Text(s: string)                      // a string, which is what every form field is
    | Flag(b: bool)                        // a JSON boolean
    | List(items: seq<Input>)              // an array
    | Record(fields: map<string, Input>)   // an object / associative array
    | Upload(isImage: bool, bytes: nat)    // an uploaded file; isImage: its type is one the `image` rule accepts

  /** The request's value for `key`, Missing when it was not sent. */
  function Get(request: map<string, Input>, key: string): Input
  {
    if key in request then request[key] else Missing
  }

  /** The range of a PHP integer (64-bit). */
  const PhpIntMin: int := -0x8000_0000_0000_0000
  const PhpIntMax: int := 0x7FFF_FFFF_FFFF_FFFF

  /** `max:2048` on a file: its size in kilobytes (bytes / 1024) at most 2048. */
  const MaxUploadKilobytes: nat := 2048

  // ---------------------------------------------------------------------------
  // Decimal integers, as the `integer` rule reads them from a string

  predicate IsDigit(c: char)
  {
    '0' <= c <= '9'
  }

  predicate AllDigits(s: string)
  {
    forall i | 0 <= i < |s| :: IsDigit(s[i])
  }

  function DigitsValue(s: string): nat
    requires AllDigits(s)
  {
    if s == [] then 0 else DigitsValue(s[..|s| - 1]) * 10 + (s[|s| - 1] as int - '0' as int)
  }

  /** An unsigned decimal numeral: "0", or digits not starting with 0. */
  predicate IsNumeral(s: string)
  {
    s != [] && AllDigits(s) && (s[0] != '0' || |s| == 1)
  }

  /**
    The integer a string denotes under the `integer` rule: an optional sign and a
    numeral without leading zeros, within the 64-bit range; None otherwise.
   */
  function ParseInt(s: string): Option<int>
  {
    var negative := |s| > 0 && s[0] == '-';
    var body := if |s| > 0 && (s[0] == '-' || s[0] == '+') then s[1..] else s;
    if !IsNumeral(body) then None
    else
      var magnitude: int := DigitsValue(body);
      var n := if negative then 0 - magnitude else magnitude;
      if PhpIntMin <= n <= PhpIntMax then Some(n) else None
  }

  function DigitChar(d: nat): char
    requires d < 10
  {
    ('0' as int + d) as char
  }

  /** The decimal numeral of `n`, as a form field carries a number. */
  function Decimal(n: int): string
  {
    if n < 0 then "-" + Numeral(-n) else Numeral(n)
  }

  function Numeral(n: nat): string
  {
    if n < 10 then [DigitChar(n)] else Numeral(n / 10) + [DigitChar(n % 10)]
  }

  lemma {:induction false} NumeralIsNumeral(n: nat)
    ensures IsNumeral(Numeral(n)) && DigitsValue(Numeral(n)) == n
    ensures n != 0 ==> Numeral(n)[0] != '0'
  {
    if n >= 10 {
      NumeralIsNumeral(n / 10);
      var s := Numeral(n);
      assert s[..|s| - 1] == Numeral(n / 10);
    }
  }

  /** Reading back the numeral of a 64-bit integer gives that integer. */
  lemma ParseDecimal(n: int)
    requires PhpIntMin <= n <= PhpIntMax
    ensures ParseInt(Decimal(n)) == Some(n)
  {
    if n < 0 {
      NumeralIsNumeral(-n);
      assert Decimal(n)[1..] == Numeral(-n);
    } else {
      NumeralIsNumeral(n);
    }
  }

  // ---------------------------------------------------------------------------
  // The rules

  /** Characters PHP's `trim` removes. */
  predicate IsTrimmed(c: char)
  {
    c == ' ' || c == '\t' || c == '\n' || c == '\r' || c == '\0' || c == 11 as char
  }

  /** `required`: present, not null, not a blank string, not an empty array. */
  predicate Filled(v: Input)
  {
    match v
    case Missing => false
    case Null => false
    case Text(s) => exists i | 0 <= i < |s| :: !IsTrimmed(s[i])
    case List(items) => items != []
    case Record(fields) => fields != map[]
    case _ => true
  }

  /** Null or an empty string: what `nullable` lets through without further checks. */
  predicate Blank(v: Input)
  {
    v == Missing || v == Null || v == Text("")
  }

  /** `integer`: the integer the value denotes, if the rule accepts it. */
  function IntegerValue(v: Input): Option<int>
  {
    match v
    case Num(n) => if PhpIntMin <= n <= PhpIntMax then Some(n) else None
    case Text(s) => ParseInt(s)
    case _ => None
  }

  /** `integer|min:m` */
  predicate IntegerAtLeast(v: Input, m: int)
  {
    IntegerValue(v).Some? && IntegerValue(v).value >= m
  }

  /** `string|max:n` (length in characters). */
  predicate StringAtMost(v: Input, n: nat)
  {
    v.Text? && |v.s| <= n
  }

  /** `boolean`: true, false, 1, 0, "1" or "0". */
  predicate IsBoolean(v: Input)
  {
    v.Flag? || v == Num(0) || v == Num(1) || v == Text("0") || v == Text("1")
  }

  /** `file|image|max:2048` */
  predicate IsImageWithinLimit(v: Input)
  {
    v.Upload? && v.isImage && v.bytes <= MaxUploadKilobytes * 1024
  }

  /** `exists:table,id`, with the table's ids as a set. */
  predicate ExistsIn(v: Input, ids: set<int>)
  {
    IntegerValue(v).Some? && IntegerValue(v).value in ids
  }

  /** The field `key` of an array entry (`list.*.key`), Missing when the entry has none. */
  function FieldOf(entry: Input, key: string): Input
  {
    if entry.Record? && key in entry.fields then entry.fields[key] else Missing
  }

  /** A value the `integer` rule accepts also passes `required`. */
  lemma IntegerIsFilled(v: Input)
    ensures IntegerValue(v).Some? ==> Filled(v)
  {
    if v.Text? && IntegerValue(v).Some? {
      var s := v.s;
      var body := if |s| > 0 && (s[0] == '-' || s[0] == '+') then s[1..] else s;
      assert IsDigit(body[0]);
      var i := if body == s then 0 else 1;
      assert s[i] == body[0] && !IsTrimmed(s[i]);
    }
  }

  /** A form field holding the numeral of an integer is read as that integer. */
  lemma {:induction false} TextNumeralIsInteger(n: int)
    requires PhpIntMin <= n <= PhpIntMax
    ensures IntegerValue(Text(Decimal(n))) == IntegerValue(Num(n)) == Some(n)
  {
    ParseDecimal(n);
  }
}
