/** The values a parsed request body or query string carries. */
module Json {
  import opened Options
  import opened Text

  /** A JavaScript value as a request handler sees it; numbers are integers. */
  datatype Value =
    | Undefined        // the field is absent
    | Null
    | Bool(b: bool)
    | Num(n: int)
    | Str(s: string)
    | Arr(items: seq<Value>)
    | Obj              // any other object

  /** JavaScript truthiness, the test behind `if (v)` and `!v`. */
  predicate Truthy(v: Value) {
    match v
    case Undefined => false
    case Null => false
    case Bool(b) => b
    case Num(n) => n != 0
    case Str(s) => s != ""
    case Arr(_) => true
    case Obj => true
  }

  predicate IsString(v: Value) { v.Str? }

  function TrimEnd(s: string): (r: string)
    ensures r == [] || !IsSpace(r[|r| - 1])
  {
    if s != [] && IsSpace(s[|s| - 1]) then TrimEnd(s[..|s| - 1]) else s
  }

  /**
   * `Number(s)` on a string, for the integer forms: surrounding white space
   * is ignored, the empty string is 0, and a decimal numeral with an
   * optional sign, or an unsigned "0x" hexadecimal, "0o" octal or "0b"
   * binary literal, is read whole. `None` is NaN.
   */
  function StringToNumber(s: string): Option<int>
  {
    var t := TrimEnd(TrimStart(s));
    if t == [] then Some(0)
    else if |t| > 2 && t[0] == '0' && (t[1] == 'x' || t[1] == 'X') && AllHex(t[2..]) then Some(HexValue(t[2..]))
    else if |t| > 2 && t[0] == '0' && (t[1] == 'o' || t[1] == 'O') && AllBelow(t[2..], 8) then Some(BaseValue(t[2..], 8))
    else if |t| > 2 && t[0] == '0' && (t[1] == 'b' || t[1] == 'B') && AllBelow(t[2..], 2) then Some(BaseValue(t[2..], 2))
    else if AllDigits(t) then Some(DigitsValue(t))
    else if |t| > 1 && t[0] == '-' && AllDigits(t[1..]) then Some(0 - DigitsValue(t[1..]))
    else if |t| > 1 && t[0] == '+' && AllDigits(t[1..]) then Some(DigitsValue(t[1..]))
    else None
  }

  /**
   * `Number(v)`; `None` is NaN. An array is first joined into a string:
   * the empty array gives "" (0), an array of two or more elements gives a
   * string holding a comma (NaN), and a single element gives its own string
   * form, which is "" for `null` and `undefined`.
   */
  function ToNumber(v: Value): Option<int>
    decreases v, 0
  {
    match v
    case Num(n) => Some(n)
    case Bool(b) => Some(if b then 1 else 0)
    case Null => Some(0)
    case Str(s) => StringToNumber(s)
    case Arr(items) =>
      if items == [] then Some(0)
      else if |items| > 1 then None
      else ElementToNumber(items[0])
    case _ => None
  }

  /** `Number(String(v))` for the lone element `v` of an array. */
  function ElementToNumber(v: Value): Option<int>
    decreases v, 1
  {
    match v
    case Undefined => Some(0)
    case Null => Some(0)
    case Num(n) => Some(n)
    case Bool(_) => None          // "true" and "false" are not numerals
    case Str(s) => StringToNumber(s)
    case Arr(items) => ToNumber(Arr(items))
    case Obj => None              // "[object Object]"
  }

  /** A digit string, with or without a leading minus sign, has no white space to trim at either end. */
  lemma DigitsUntrimmed(d: string, sign: string)
    requires d != [] && AllDigits(d)
    requires sign == [] || sign == "-"
    ensures TrimEnd(TrimStart(sign + d)) == sign + d
  {
    var m := sign + d;
    NoSpaceBefore(m);
    assert m[|m| - 1] == d[|d| - 1];
    assert !IsSpace(m[|m| - 1]);
  }

  /** `Number` reads a digit string whole. */
  lemma NumberOfDigits(d: string)
    requires d != [] && AllDigits(d)
    ensures StringToNumber(d) == Some(DigitsValue(d) as int)
  {
    DigitsUntrimmed(d, []);
    assert [] + d == d;
    assert |d| > 2 ==> IsDigit(d[1]);
  }

  /** `Number` reads a minus sign followed by digits as the negated value. */
  lemma NumberOfNegativeDigits(d: string)
    requires d != [] && AllDigits(d)
    ensures StringToNumber("-" + d) == Some(0 - DigitsValue(d))
  {
    var m := "-" + d;
    DigitsUntrimmed(d, "-");
    assert m[1..] == d;
    assert !AllDigits(m) by { assert !IsDigit(m[0]); }
  }

  /** A string holding a written-out number converts to that number, with or without a minus sign. */
  lemma NumberOfNumeral(n: nat)
    ensures ToNumber(Str(Decimal(n))) == Some(n as int)
    ensures ToNumber(Str("-" + Decimal(n))) == Some(0 - n)
  {
    DecimalValue(n);
    NumberOfDigits(Decimal(n));
    NumberOfNegativeDigits(Decimal(n));
  }

  /** `Number` reads an unsigned "0b"/"0B" binary or "0o"/"0O" octal literal in its base. */
  lemma NumberOfBaseLiteral(letter: char, d: string, base: nat)
    requires (base == 2 && (letter == 'b' || letter == 'B')) || (base == 8 && (letter == 'o' || letter == 'O'))
    requires d != [] && AllBelow(d, base)
    ensures StringToNumber(['0', letter] + d) == Some(BaseValue(d, base))
  {
    var m := ['0', letter] + d;
    NoSpaceBefore(m);
    assert m[|m| - 1] == d[|d| - 1];
    assert !IsSpace(m[|m| - 1]);
    assert m[2..] == d;
  }

  /** For instance, "0b101" is 5 and "0O17" is 15. */
  lemma NumberOfPrefixedLiterals()
    ensures StringToNumber("0b101") == Some(5)
    ensures StringToNumber("0O17") == Some(15)
  {
    NumberOfBaseLiteral('b', "101", 2);
    assert "101"[..2] == "10" && "10"[..1] == "1" && "1"[..0] == "";
    assert ['0', 'b'] + "101" == "0b101";
    NumberOfBaseLiteral('O', "17", 8);
    assert "17"[..1] == "1";
    assert ['0', 'O'] + "17" == "0O17";
  }

  /**
   * `Number` of an array: the empty array is 0, an array holding just a
   * numeral, at any depth of nesting, is that number, and an array of two
   * or more elements is NaN.
   */
  lemma {:induction false} NumberOfArray(n: nat, depth: nat)
    ensures ToNumber(Arr([])) == Some(0)
    ensures ToNumber(Nest(Str(Decimal(n)), depth + 1)) == Some(n as int)
    ensures forall items: seq<Value> :: |items| > 1 ==> ToNumber(Arr(items)).None?
  {
    if depth == 0 {
      NumberOfNumeral(n);
    } else {
      NumberOfArray(n, depth - 1);
    }
  }

  /** `v` wrapped in `depth` one-element arrays. */
  function Nest(v: Value, depth: nat): (r: Value)
    ensures depth > 0 ==> r.Arr? && |r.items| == 1
  {
    if depth == 0 then v else Arr([Nest(v, depth - 1)])
  }
}

/** Interpretation of the upload and link fields shared by both controllers. */
module Requests {
  import opened Json
  import opened Seqs

  /** The stored path of each uploaded file, in upload order: the directory followed by the file name. */
  function UploadPaths(dir: string, files: seq<string>): (r: seq<Value>)
    ensures |r| == |files|
    ensures forall i :: 0 <= i < |files| ==> r[i] == Str(dir + files[i])
  {
    seq(|files|, i requires 0 <= i < |files| => Str(dir + files[i]))
  }

  /**
   * The image links of an update request (`req.body.image`): the string
   * elements of an array in their order, a lone non-empty string, and nothing otherwise.
   */
  function LinkImages(image: Value): (r: seq<Value>)
    ensures forall i :: 0 <= i < |r| ==> r[i].Str?
    ensures image.Arr? ==> r == Filter(image.items, IsString)
    ensures image.Arr? ==> forall i :: 0 <= i < |image.items| && image.items[i].Str? ==> image.items[i] in r
    ensures image.Str? ==> r == (if image.s != "" then [image] else [])
    ensures !Truthy(image) || (!image.Arr? && !image.Str?) ==> r == []
  {
    if !Truthy(image) then []
    else if image.Arr? then Filter(image.items, IsString)
    else if image.Str? then [image]
    else []
  }
}
