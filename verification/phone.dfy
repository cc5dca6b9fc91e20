/** The Brazilian phone-number value object: parsing a raw number into country code,
    area code (DDD) and subscriber number, and the two display forms. */
module Phone {
  import opened Wrappers
  import Text

  datatype PhoneError =
    | AreaCodeRequired
    | InvalidNumber(raw: string)

  datatype Phone = Phone(
    id: Option<string>,
    countryCode: string,
    areaCode: string,
    number: string,
    phoneLabel: Option<string>,
    isWhatsapp: bool,
    isVerified: bool)

  /** The two ways to build a phone: from a raw string to parse, or from its parts. */
  datatype PhoneInput =
    | Raw(rawNumber: string)
    | Parts(countryCode: string, areaCode: string, partsNumber: string)

  datatype Parsed = Parsed(countryCode: string, areaCode: string, number: string)

  /** `raw.replace(/[^\d+]/g, '')`: only the digits and '+' signs, in order. */
  function Clean(raw: string): (c: string)
    ensures |c| <= |raw|
    ensures forall i :: 0 <= i < |c| ==> Text.IsDigit(c[i]) || c[i] == '+'
  {
    if |raw| == 0 then ""
    else (if Text.IsDigit(raw[0]) || raw[0] == '+' then [raw[0]] else []) + Clean(raw[1..])
  }

  /** A cleaned string that already holds only digits and '+' is left as it is. */
  lemma {:induction false} CleanKeeps(s: string)
    requires forall i :: 0 <= i < |s| ==> Text.IsDigit(s[i]) || s[i] == '+'
    ensures Clean(s) == s
  {
    if |s| > 0 {
      CleanKeeps(s[1..]);
      assert s == [s[0]] + s[1..];
    }
  }

  /** `(\d{2})(\d{8,9})`: two area-code digits followed by eight or nine digits. */
  predicate AreaAndNumber(s: string) {
    Text.AllDigits(s) && (|s| == 10 || |s| == 11)
  }

  /** `/^(\+?55)?(\d{2})(\d{8,9})$/` with its backtracking order: the country code is
      taken when what follows it still matches, otherwise the whole string must. */
  function MatchFull(c: string): (r: Option<Parsed>)
  {
    if |c| >= 3 && c[..3] == "+55" && AreaAndNumber(c[3..]) then
      Some(Parsed("+55", c[3..5], c[5..]))
    else if |c| >= 2 && c[..2] == "55" && AreaAndNumber(c[2..]) then
      Some(Parsed("+55", c[2..4], c[4..]))
    else if AreaAndNumber(c) then
      Some(Parsed("+55", c[..2], c[2..]))
    else None
  }

  /** `PhoneVO.parse`: the full form, else the area-code error for a bare 8- or 9-digit
      number, else the generic error. */
  function Parse(raw: string): (r: Result<Parsed, PhoneError>)
    ensures r.Success? ==> r.value.countryCode == "+55"
                           && |r.value.areaCode| == 2 && Text.AllDigits(r.value.areaCode)
                           && (|r.value.number| == 8 || |r.value.number| == 9) && Text.AllDigits(r.value.number)
    ensures Text.AllDigits(Clean(raw)) && (|Clean(raw)| == 8 || |Clean(raw)| == 9) ==> r == Failure(AreaCodeRequired)
    ensures r.Failure? && r.error != AreaCodeRequired ==> r == Failure(InvalidNumber(raw))
  {
    var c := Clean(raw);
    match MatchFull(c)
    case Some(p) => Success(p)
    case None =>
      if Text.AllDigits(c) && (|c| == 8 || |c| == 9) then Failure(AreaCodeRequired)
      else Failure(InvalidNumber(raw))
  }

  /** A string of 10 or 11 digits, with or without a leading "55" or "+55", parses; and a
      string of only 8 or 9 digits never does. */
  lemma ParseAccepts(c: string)
    requires AreaAndNumber(c)
    ensures Parse(c).Success?
    ensures Parse("+55" + c) == Success(Parsed("+55", c[..2], c[2..]))
  {
    CleanKeeps(c);
    assert c[..3][0] == c[0];
    assert |c[2..]| < 10;
    assert MatchFull(c).Some?;
    var full := "+55" + c;
    assert forall i :: 0 <= i < |full| ==> Text.IsDigit(full[i]) || full[i] == '+' by {
      forall i | 0 <= i < |full| ensures Text.IsDigit(full[i]) || full[i] == '+' {
        if i >= 3 { assert full[i] == c[i - 3]; }
      }
    }
    CleanKeeps(full);
    assert full[..3] == "+55" && full[3..] == c;
    assert full[3..5] == c[..2] && full[5..] == c[2..];
  }

  /** `new PhoneVO(input)`: a raw input is parsed, parts are taken as given; the flags
      default to false. */
  function MakePhone(input: PhoneInput, id: Option<string>, phoneLabel: Option<string>,
                     isWhatsapp: Option<bool>, isVerified: Option<bool>): (r: Result<Phone, PhoneError>)
    ensures r.Success? ==> r.value.isWhatsapp == isWhatsapp.GetOr(false) && r.value.isVerified == isVerified.GetOr(false)
    ensures input.Parts? ==> r.Success? && r.value.areaCode == input.areaCode && r.value.number == input.partsNumber
    ensures input.Raw? ==> (r.Success? <==> Parse(input.rawNumber).Success?)
  {
    match input
    case Parts(cc, area, num) =>
      Success(Phone(id, cc, area, num, phoneLabel, isWhatsapp.GetOr(false), isVerified.GetOr(false)))
    case Raw(raw) =>
      match Parse(raw)
      case Failure(e) => Failure(e)
      case Success(p) =>
        Success(Phone(id, p.countryCode, p.areaCode, p.number, phoneLabel, isWhatsapp.GetOr(false), isVerified.GetOr(false)))
  }

  /** `full_number`: "+55 DD NNNNNNNNN". */
  function FullNumber(p: Phone): string {
    p.countryCode + " " + p.areaCode + " " + p.number
  }

  /** JavaScript's `slice(0, n)` and `slice(n)`, which clamp to the string. */
  function Take(s: string, n: nat): string { if n <= |s| then s[..n] else s }
  function Drop(s: string, n: nat): string { if n <= |s| then s[n..] else "" }

  /** `formatted`: "(DD) NNNNN-NNNN" for nine digits, "(DD) NNNN-NNNN" otherwise. */
  function Formatted(p: Phone): (f: string)
    ensures |p.number| == 9 ==> f == "(" + p.areaCode + ") " + p.number[..5] + "-" + p.number[5..]
    ensures |p.number| == 8 ==> f == "(" + p.areaCode + ") " + p.number[..4] + "-" + p.number[4..]
  {
    var num := p.number;
    if |num| == 9 then "(" + p.areaCode + ") " + Take(num, 5) + "-" + Drop(num, 5)
    else "(" + p.areaCode + ") " + Take(num, 4) + "-" + Drop(num, 4)
  }

  /** Parsing the full number of a parsed phone gives back its area code and number. */
  lemma FullNumberRoundTrip(raw: string, id: Option<string>, phoneLabel: Option<string>, w: Option<bool>, v: Option<bool>)
    requires MakePhone(Raw(raw), id, phoneLabel, w, v).Success?
    ensures var p := MakePhone(Raw(raw), id, phoneLabel, w, v).value;
            Parse(FullNumber(p)) == Success(Parsed("+55", p.areaCode, p.number))
  {
    var p := MakePhone(Raw(raw), id, phoneLabel, w, v).value;
    var c := p.areaCode + p.number;
    assert AreaAndNumber(c) by {
      assert forall i :: 0 <= i < |c| ==> Text.IsDigit(c[i]) by {
        forall i | 0 <= i < |c| ensures Text.IsDigit(c[i]) {
          if i < 2 { assert c[i] == p.areaCode[i]; } else { assert c[i] == p.number[i - 2]; }
        }
      }
    }
    RemoveSpaces(p.areaCode, p.number);
    assert FullNumber(p) == "+55 " + p.areaCode + " " + p.number;
    assert "+55" + p.areaCode + p.number == "+55" + c;
    ParseAccepts(c);
    assert c[..2] == p.areaCode && c[2..] == p.number;
  }

  /** The spaces of the full number are cleaned away. */
  lemma RemoveSpaces(area: string, number: string)
    requires Text.AllDigits(area) && Text.AllDigits(number)
    ensures Clean("+55 " + area + " " + number) == "+55" + area + number
  {
    var head := "+55" + " " + area;
    assert "+55 " + area + " " + number == head + " " + number;
    CleanSkipsSpace(head, number);
    CleanSkipsSpace("+55", area);
    CleanKeeps("+55");
    CleanKeeps(area);
    CleanKeeps(number);
  }

  /** A space between two strings is cleaned away. */
  lemma CleanSkipsSpace(a: string, b: string)
    ensures Clean(a + " " + b) == Clean(a) + Clean(b)
  {
    CleanAppend(a + " ", b);
    CleanAppend(a, " ");
    assert Clean(" ") == "";
  }

  lemma {:induction false} CleanAppend(a: string, b: string)
    ensures Clean(a + b) == Clean(a) + Clean(b)
  {
    if |a| > 0 {
      assert (a + b)[0] == a[0] && (a + b)[1..] == a[1..] + b;
      CleanAppend(a[1..], b);
    } else {
      assert a + b == b;
    }
  }
}
