/** The postal-code (CEP) helpers of the frontend: keeping the digits, the "XXXXX-XXX"
    mask, the eight-digit check, the input handler, and the address lookup whose request
    is a parameter. */
module Cep {
  import opened Wrappers
  import Text
  import Seqs

  /** `extractCepDigits`: every character that is not a decimal digit is removed; the
      digits stay, each as often as it occurs, in their order. */
  function ExtractCepDigits(s: string): (r: string)
    ensures Text.AllDigits(r) && |r| <= |s|
    ensures forall c :: c in r <==> c in s && Text.IsDigit(c)
    ensures Seqs.SubsequenceOf(r, s)
    ensures forall c :: Text.IsDigit(c) ==> Seqs.Count(r, c) == Seqs.Count(s, c)
  {
    Seqs.FilterIsSubsequence(s, Text.IsDigit);
    forall c | Text.IsDigit(c)
      ensures Seqs.Count(Seqs.Filter(s, Text.IsDigit), c) == Seqs.Count(s, c)
    {
      Seqs.FilterCount(s, Text.IsDigit, c);
    }
    Seqs.Filter(s, Text.IsDigit)
  }

  /** A string of digits is its own digits; extracting twice is extracting once. */
  lemma ExtractOfDigits(s: string)
    ensures Text.AllDigits(s) ==> ExtractCepDigits(s) == s
    ensures ExtractCepDigits(ExtractCepDigits(s)) == ExtractCepDigits(s)
  {
    Seqs.FilterIdempotent(s, Text.IsDigit);
    if Text.AllDigits(s) {
      Seqs.FilterAll(s, Text.IsDigit);
    }
  }

  /** The first `n` characters, or all of them when there are fewer (`slice(0, n)`). */
  function Take(s: string, n: nat): (r: string)
    ensures |r| == (if |s| <= n then |s| else n) && r == s[..|r|]
  {
    if |s| <= n then s else s[..n]
  }

  /** `formatCep`: up to five digits unchanged, otherwise the first five, a hyphen and the
      next up to three. */
  function FormatCep(s: string): (r: string)
    ensures var digits := ExtractCepDigits(s);
            if |digits| <= 5 then r == digits
            else |r| == (if |digits| < 8 then |digits| else 8) + 1
                 && r[..5] == digits[..5] && r[5] == '-' && r[6..] == Take(digits, 8)[5..]
  {
    var digits := ExtractCepDigits(s);
    if |digits| <= 5 then digits
    else digits[..5] + "-" + Take(digits, 8)[5..]
  }

  /** The digits of a formatted CEP are the first eight digits of the input. */
  lemma ExtractFormat(s: string)
    ensures ExtractCepDigits(FormatCep(s)) == Take(ExtractCepDigits(s), 8)
  {
    var digits := ExtractCepDigits(s);
    ExtractOfDigits(s);
    if |digits| > 5 {
      var t := Take(digits, 8);
      assert t == t[..5] + t[5..];
      assert t[..5] == digits[..5];
      ExtractJoin(digits[..5], t[5..]);
    }
  }

  /** Joining two runs of digits with a hyphen and extracting gives the runs back. */
  lemma ExtractJoin(a: string, b: string)
    requires Text.AllDigits(a) && Text.AllDigits(b)
    ensures ExtractCepDigits(a + "-" + b) == a + b
  {
    assert Seqs.Filter("-", Text.IsDigit) == [] by {
      assert "-"[1..] == [];
    }
    assert Seqs.Filter(a + "-", Text.IsDigit) == a by {
      Seqs.FilterAppend(a, "-", Text.IsDigit);
      Seqs.FilterAll(a, Text.IsDigit);
    }
    assert Seqs.Filter(b, Text.IsDigit) == b by {
      Seqs.FilterAll(b, Text.IsDigit);
    }
    Seqs.FilterAppend(a + "-", b, Text.IsDigit);
  }

  /** Formatting a formatted CEP changes nothing. */
  lemma FormatCepIdempotent(s: string)
    ensures FormatCep(FormatCep(s)) == FormatCep(s)
  {
    ExtractFormat(s);
    var digits := ExtractCepDigits(s);
    var t := Take(digits, 8);
    if |digits| > 5 {
      assert Take(t, 8) == t;
      assert t[..5] == digits[..5];
    }
  }

  /** `isValidCepFormat`: exactly eight digits, whatever else surrounds them; a valid CEP
      formats as "XXXXX-XXX" with its digits unchanged. */
  function IsValidCepFormat(s: string): (b: bool)
    ensures b ==> |FormatCep(s)| == 9 && FormatCep(s)[5] == '-' && ExtractCepDigits(FormatCep(s)) == ExtractCepDigits(s)
  {
    ExtractFormat(s);
    |ExtractCepDigits(s)| == 8
  }

  /** A formatted CEP is valid exactly when the input had at least eight digits, and a
      valid one reads "XXXXX-XXX". */
  lemma FormatValid(s: string)
    ensures IsValidCepFormat(FormatCep(s)) <==> |ExtractCepDigits(s)| >= 8
    ensures |ExtractCepDigits(s)| >= 8 ==> |FormatCep(s)| == 9 && FormatCep(s)[5] == '-'
  {
    ExtractFormat(s);
  }

  /** `handleCepChange`: the value handed to `onChange`, the mask of at most eight digits. */
  function HandleCepChange(value: string): (r: string)
    ensures |ExtractCepDigits(r)| <= 8
    ensures r == FormatCep(value)
  {
    var limited := Take(ExtractCepDigits(value), 8);
    FormatFirstEight(value);
    ExtractFormat(value);
    FormatCep(limited)
  }

  /** Cutting the digits to eight before formatting changes nothing. */
  lemma FormatFirstEight(value: string)
    ensures FormatCep(Take(ExtractCepDigits(value), 8)) == FormatCep(value)
  {
    var limited := Take(ExtractCepDigits(value), 8);
    ExtractOfDigits(value);
    ExtractFormat(limited);
    assert ExtractCepDigits(limited) == limited by {
      assert Text.AllDigits(limited);
      ExtractOfDigits(limited);
    }
  }

  /** The errors `fetchAddressByCep` throws: its own three codes, with the two
      NETWORK_ERROR causes kept apart by their messages, and a failed request's own
      error, passed on unchanged when it carries a truthy `code`. */
  datatype CepError =
    | InvalidCep
    | NotFound
    | BadResponse                          // NETWORK_ERROR, "Erro ao processar resposta"
    | RequestError                         // NETWORK_ERROR, "Erro ao buscar CEP"
    | Rethrown(code: string)               // the request's error, thrown again as it was

  /** The `code` field of a thrown error. */
  function ErrorCode(e: CepError): (c: string)
    ensures c == "NETWORK_ERROR" <==> e.BadResponse? || e.RequestError? || e == Rethrown("NETWORK_ERROR")
  {
    match e
    case InvalidCep => "INVALID_CEP"
    case NotFound => "NOT_FOUND"
    case BadResponse => "NETWORK_ERROR"
    case RequestError => "NETWORK_ERROR"
    case Rethrown(code) => code
  }

  datatype Address = Address(cep: string, street: string, complement: string, neighborhood: string,
                             city: string, state: string)

  /** The lookup service's answer, as far as the validation of it goes. */
  datatype LookupResponse =
    | Found(cep: string, logradouro: string, complemento: string, bairro: string, localidade: string, uf: string)
    | ErrorFlag      // `{ erro: true }`
    | Malformed      // neither shape
    | RequestFailed(code: Option<string>)  // the request itself failed, with the error's `code`

  /** Whether a thrown error's `code` is truthy: present and not empty. */
  predicate HasCode(code: Option<string>) {
    code.Some? && code.value != ""
  }

  /** `fetchAddressByCep`: input without exactly eight digits is refused before any
      request; otherwise the answer for the digits is translated, and a failed request's
      error is thrown again when it has a code of its own. */
  function FetchAddressByCep(s: string, lookup: string -> LookupResponse): (r: Result<Address, CepError>)
    ensures !IsValidCepFormat(s) ==> r == Failure(InvalidCep)
    ensures IsValidCepFormat(s) ==>
              match lookup(ExtractCepDigits(s))
              case Found(cep, logradouro, complemento, bairro, localidade, uf) =>
                r == Success(Address(FormatCep(cep), logradouro, complemento, bairro, localidade, uf))
              case ErrorFlag => r == Failure(NotFound)
              case Malformed => r == Failure(BadResponse)
              case RequestFailed(code) =>
                (HasCode(code) ==> r == Failure(Rethrown(code.value)))
                && (!HasCode(code) ==> r == Failure(RequestError))
    ensures r.Success? ==> |ExtractCepDigits(r.value.cep)| <= 8
  {
    var digits := ExtractCepDigits(s);
    if |digits| != 8 then Failure(InvalidCep)
    else
      match lookup(digits)
      case ErrorFlag => Failure(NotFound)
      case Malformed => Failure(BadResponse)
      case RequestFailed(code) => if HasCode(code) then Failure(Rethrown(code.value)) else Failure(RequestError)
      case Found(cep, logradouro, complemento, bairro, localidade, uf) =>
        ExtractFormat(cep);
        Success(Address(FormatCep(cep), logradouro, complemento, bairro, localidade, uf))
  }

  /** Refused input never depends on the lookup: no request is made for it. */
  lemma InvalidCepMakesNoRequest(s: string, lookup1: string -> LookupResponse, lookup2: string -> LookupResponse)
    requires !IsValidCepFormat(s)
    ensures FetchAddressByCep(s, lookup1) == FetchAddressByCep(s, lookup2) == Failure(InvalidCep)
  {
  }
}
