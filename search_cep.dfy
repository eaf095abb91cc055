/** CEP (the Brazilian eight-digit postal code) formatting, the length check that runs before
    any lookup, and the mapping of the ViaCEP answer to the search result. */
module SearchCep {
  import opened Wrappers
  import opened Text
  import opened Seqs

  /** `cep.replace(/\D/g, '')`: the digits of `s`, in order. */
  function CleanCep(s: string): (r: string)
    ensures AllDigits(r) && |r| <= |s|
  {
    Filter(IsDigit, s)
  }

  /** Cleaning keeps exactly the digits, in order, and leaves digit strings alone. */
  lemma CleanCepMeaning(s: string)
    ensures forall c :: c in CleanCep(s) <==> c in s && IsDigit(c)
    ensures IsSubsequence(CleanCep(s), s)
    ensures AllDigits(s) ==> CleanCep(s) == s
  {
    forall c ensures c in CleanCep(s) <==> c in s && IsDigit(c) {
      FilterMembership(IsDigit, s, c);
    }
    FilterIsSubsequence(IsDigit, s);
    if AllDigits(s) {
      FilterKeepsAll(IsDigit, s);
    }
  }

  /** `formatCep`: more than five digits get a hyphen after the fifth, and digits past the
      eighth are dropped. */
  function FormatCep(cep: string): (r: string)
    ensures |r| <= 9
    ensures |CleanCep(cep)| <= 5 ==> r == CleanCep(cep)
    ensures |CleanCep(cep)| > 5 ==> var c := CleanCep(cep);
      && |r| == (if |c| < 8 then |c| else 8) + 1
      && r[..5] == c[..5] && r[5] == '-' && r[6..] == c[5..|r| - 1]
  {
    var c := CleanCep(cep);
    if |c| > 5 then c[..5] + "-" + c[5..if |c| < 8 then |c| else 8] else c
  }

  /** Any input with exactly eight digits comes out as `00000-000`. */
  lemma EightDigitShape(cep: string)
    requires |CleanCep(cep)| == 8
    ensures var r := FormatCep(cep);
      |r| == 9 && r[5] == '-' && (forall i :: 0 <= i < 9 && i != 5 ==> IsDigit(r[i]))
      && r[..5] + r[6..] == CleanCep(cep)
  {
    var c := CleanCep(cep);
    var r := FormatCep(cep);
    assert r == c[..5] + "-" + c[5..8];
    forall i | 0 <= i < 9 && i != 5 ensures IsDigit(r[i]) {
      if i < 5 { assert r[i] == c[i]; } else { assert r[i] == c[i - 1]; }
    }
  }

  /** Cleaning a hyphen between two digit strings drops just the hyphen. */
  lemma CleanAroundHyphen(a: string, b: string)
    requires AllDigits(a) && AllDigits(b)
    ensures CleanCep(a + "-" + b) == a + b
  {
    FilterAppend(IsDigit, a + "-", b);
    FilterAppend(IsDigit, a, "-");
    FilterKeepsAll(IsDigit, a);
    FilterKeepsAll(IsDigit, b);
    assert Filter(IsDigit, "-") == [];
  }

  lemma CleanFormatted(cep: string)
    ensures CleanCep(FormatCep(cep)) == CleanCep(cep)[..if |CleanCep(cep)| < 8 then |CleanCep(cep)| else 8]
  {
    var c := CleanCep(cep);
    if |c| > 5 {
      var m := if |c| < 8 then |c| else 8;
      var a, b := c[..5], c[5..m];
      assert FormatCep(cep) == a + "-" + b;
      CleanAroundHyphen(a, b);
      assert a + b == c[..m];
    } else {
      FilterKeepsAll(IsDigit, c);
      assert c[..|c|] == c;
    }
  }

  /** Formatting twice is formatting once. */
  lemma FormatCepIdempotent(cep: string)
    ensures FormatCep(FormatCep(cep)) == FormatCep(cep)
  {
    var c := CleanCep(cep);
    CleanFormatted(cep);
    if |c| > 5 {
      var m := if |c| < 8 then |c| else 8;
      assert c[..m][..5] == c[..5];
      assert c[..m][5..m] == c[5..m];
    } else {
      assert c[..|c|] == c;
    }
  }

  /** ViaCEP's JSON answer; `erro` is only present for an unknown CEP. */
  datatype ViaCepResponse = ViaCepResponse(
    cep: string,
    logradouro: string,
    complemento: string,
    bairro: string,
    localidade: string,
    uf: string,
    ibge: string,
    gia: string,
    ddd: string,
    siafi: string,
    erro: Option<bool>)

  datatype CepData = CepData(
    street: string,
    city: string,
    state: string,
    complement: Option<string>,
    district: Option<string>)

  datatype SearchCepResult = SearchCepResult(success: bool, data: Option<CepData>, error: Option<string>)

  function Failure(message: string): SearchCepResult {
    SearchCepResult(false, None, Some(message))
  }

  /** What the request gives back: a thrown exception (network or JSON), a non-2xx status,
      or a decoded body. */
  datatype FetchOutcome = Thrown | NotOk | Body(response: ViaCepResponse)

  /** The URL queried, or the immediate answer when the cleaned CEP has not 8 digits. */
  function CepRequest(cep: string): (r: Result<string, SearchCepResult>)
    ensures r.Err? <==> |CleanCep(cep)| != 8
    ensures r.Err? ==> r.error == Failure("CEP deve ter 8 dígitos")
    ensures r.Ok? ==> r.value == "https://viacep.com.br/ws/" + CleanCep(cep) + "/json/"
  {
    var clean := CleanCep(cep);
    if |clean| != 8 then Err(Failure("CEP deve ter 8 dígitos"))
    else Ok("https://viacep.com.br/ws/" + clean + "/json/")
  }

  /** `x || undefined` for a string. */
  function NonEmpty(s: string): (r: Option<string>)
    ensures r.None? <==> s == ""
    ensures r.Some? ==> r.value == s
  {
    if s == "" then None else Some(s)
  }

  function ResultOf(outcome: FetchOutcome): (r: SearchCepResult)
    ensures r.success <==> outcome.Body? && outcome.response.erro != Some(true)
    ensures (r.success <==> r.data.Some?) && (r.success <==> r.error.None?)
    ensures outcome.Body? && outcome.response.erro == Some(true) ==> r.error == Some("CEP não encontrado")
  {
    match outcome
    case Thrown => Failure("Erro ao buscar CEP. Verifique sua conexão.")
    case NotOk => Failure("Erro na consulta do CEP")
    case Body(data) =>
      if data.erro == Some(true) then Failure("CEP não encontrado")
      else SearchCepResult(true, Some(CepData(data.logradouro, data.localidade, data.uf,
                                              NonEmpty(data.complemento), NonEmpty(data.bairro))), None)
  }

  /** `searchCep` with the lookup's outcome as a parameter; the outcome is only consulted
      when a request is made. */
  function Search(cep: string, outcome: FetchOutcome): (r: SearchCepResult)
    ensures |CleanCep(cep)| != 8 ==> r == Failure("CEP deve ter 8 dígitos")
    ensures |CleanCep(cep)| == 8 ==> r == ResultOf(outcome)
  {
    match CepRequest(cep)
    case Err(immediate) => immediate
    case Ok(_) => ResultOf(outcome)
  }

  /** A wrong length fails the same way whatever the lookup would have returned. */
  lemma WrongLengthNeedsNoLookup(cep: string, o1: FetchOutcome, o2: FetchOutcome)
    ensures |CleanCep(cep)| != 8 ==> Search(cep, o1) == Search(cep, o2) == Failure("CEP deve ter 8 dígitos")
  {
  }

  /** Every result is either a success with data and no error or a failure with an error and
      no data; the failure message says which step failed. */
  lemma SearchOutcomes(cep: string, outcome: FetchOutcome)
    ensures var r := Search(cep, outcome);
      (r.success <==> r.data.Some?) && (r.success <==> r.error.None?)
    ensures |CleanCep(cep)| == 8 ==> match outcome
      case Thrown => Search(cep, outcome) == Failure("Erro ao buscar CEP. Verifique sua conexão.")
      case NotOk => Search(cep, outcome) == Failure("Erro na consulta do CEP")
      case Body(data) => (Search(cep, outcome).success <==> data.erro != Some(true))
  {
  }

  /** A found address copies street, city and state, and an empty complement or district
      becomes absent. */
  lemma FoundAddress(cep: string, data: ViaCepResponse)
    requires |CleanCep(cep)| == 8 && data.erro != Some(true)
    ensures var r := Search(cep, Body(data));
      && r.success && r.data.Some?
      && r.data.value.street == data.logradouro
      && r.data.value.city == data.localidade
      && r.data.value.state == data.uf
      && (r.data.value.complement.None? <==> data.complemento == "")
      && (r.data.value.district.None? <==> data.bairro == "")
      && (data.complemento != "" ==> r.data.value.complement == Some(data.complemento))
      && (data.bairro != "" ==> r.data.value.district == Some(data.bairro))
  {
  }
}
