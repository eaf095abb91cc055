/** The room creation form: the opening/closing time options, the form schema (number,
    opening time, closing time, interval among 15, 30 and 60 minutes), the submitted
    request and the interval summary. */
module CreateRoomModal {
  import opened Wrappers
  import opened Text
  import opened TimeOfDay

  /** The options of both time selects: every half hour of the day. */
  function OptionMinutes(): seq<nat> {
    Grid(0, 30, 48)
  }

  /** `generateTimeOptions`: hours 0..23, minutes 0 and 30. */
  method GenerateTimeOptions() returns (options: seq<string>)
    ensures options == Times(OptionMinutes())
  {
    ghost var ms: seq<nat> := [];
    options := [];
    var hour := 0;
    while hour < 24
      invariant 0 <= hour <= 24
      invariant |ms| == 2 * hour
      invariant forall i :: 0 <= i < |ms| ==> ms[i] == 30 * i
      invariant options == Times(ms)
    {
      var minute := 0;
      while minute < 60
        invariant minute == 0 || minute == 30 || minute == 60
        invariant |ms| == 2 * hour + (if minute == 0 then 0 else if minute == 30 then 1 else 2)
        invariant forall i :: 0 <= i < |ms| ==> ms[i] == 30 * i
        invariant options == Times(ms)
      {
        TimesSnocLabel(ms, hour, minute);
        options := options + [Label(hour, minute)];
        ms := ms + [hour * 60 + minute];
        minute := minute + 30;
      }
      hour := hour + 1;
    }
    assert ms == OptionMinutes();
  }

  /** 48 options, "00:00" first and "23:30" last, 30 minutes apart, strictly increasing,
      each a well-formed label ending in ":00" or ":30". */
  lemma TimeOptionsShape()
    ensures var s, ms := Times(OptionMinutes()), OptionMinutes();
      && |s| == 48
      && s[0] == "00:00" && s[47] == "23:30"
      && LabelsOf(s, ms)
      && StrictlyIncreasing(ms)
      && (forall i :: 0 <= i < 47 ==> ms[i + 1] == ms[i] + 30)
      && (forall i :: 0 <= i < 48 ==> s[i][3..] == "00" || s[i][3..] == "30")
  {
    var ms := OptionMinutes();
    GridIncreasing(0, 30, 48);
    forall i | 0 <= i < 48 ensures ms[i] < MinutesPerDay && ms[i] % 30 == 0 {
      MulMono(i, 47, 30);
    }
    TimesWellFormed(ms);
    TimeOptionsEnds();
    forall i | 0 <= i < 48 ensures Times(ms)[i][3..] == "00" || Times(ms)[i][3..] == "30" {
      HalfHourMinutes(ms[i]);
    }
  }

  lemma TimeOptionsEnds()
    ensures Times(OptionMinutes())[0] == "00:00" && Times(OptionMinutes())[47] == "23:30"
  {
    var ms := OptionMinutes();
    assert ms[0] == 0 && ms[47] == 1410;
    FormatTimeShape(0);
    FormatTimeShape(1410);
  }

  /** The form values; `None` is a field the user never set. */
  datatype RoomForm = RoomForm(
    number: Option<string>,
    startTime: Option<string>,
    endTime: Option<string>,
    intervalMinutes: Option<string>)

  datatype Field = Number | StartTime | EndTime | IntervalMinutes

  /** A field error. `message` is `None` where the schema leaves the text to the validation
      library (a string field that was never set). */
  datatype FieldError = FieldError(field: Field, message: Option<string>)

  /** The values the form accepts. */
  datatype ValidForm = ValidForm(number: string, startTime: string, endTime: string, intervalMinutes: string)

  /** `useForm({ defaultValues: { intervalMinutes: '30' } })`. */
  const DefaultForm := RoomForm(None, None, None, Some("30"))

  const IntervalChoices: seq<string> := ["15", "30", "60"]

  /** `z.string().min(1, message)`. */
  function RequiredText(field: Field, value: Option<string>, message: string): (errors: seq<FieldError>)
    ensures errors == [] <==> value.Some? && value.value != ""
    ensures errors != [] ==> errors == [FieldError(field, if value.None? then None else Some(message))]
  {
    if value.None? then [FieldError(field, None)]
    else if |value.value| < 1 then [FieldError(field, Some(message))]
    else []
  }

  /** `z.enum(['15', '30', '60'], { message })`: every failure, a missing value included,
      carries the schema's message. */
  function IntervalChoice(value: Option<string>): (errors: seq<FieldError>)
    ensures errors == [] <==> value.Some? && value.value in IntervalChoices
    ensures errors != [] ==> errors == [FieldError(IntervalMinutes, Some("Selecione um intervalo válido"))]
  {
    if value.Some? && value.value in IntervalChoices then []
    else [FieldError(IntervalMinutes, Some("Selecione um intervalo válido"))]
  }

  /** `createRoomSchema`: all failing fields are reported, in field order. */
  function Validate(form: RoomForm): (r: Result<ValidForm, seq<FieldError>>)
    ensures r.Err? ==> r.error != []
    ensures r.Ok? ==> && form.number == Some(r.value.number)
                      && form.startTime == Some(r.value.startTime)
                      && form.endTime == Some(r.value.endTime)
                      && form.intervalMinutes == Some(r.value.intervalMinutes)
  {
    var errors := RequiredText(Number, form.number, "Número da sala é obrigatório")
      + RequiredText(StartTime, form.startTime, "Horário de abertura é obrigatório")
      + RequiredText(EndTime, form.endTime, "Horário de fechamento é obrigatório")
      + IntervalChoice(form.intervalMinutes);
    if errors == [] then
      Ok(ValidForm(form.number.value, form.startTime.value, form.endTime.value, form.intervalMinutes.value))
    else Err(errors)
  }

  /** The schema accepts exactly the forms with a non-empty number, opening and closing time
      and an interval among the three choices. */
  lemma ValidateIff(form: RoomForm)
    ensures Validate(form).Ok? <==>
      && form.number.Some? && form.number.value != ""
      && form.startTime.Some? && form.startTime.value != ""
      && form.endTime.Some? && form.endTime.value != ""
      && form.intervalMinutes.Some? && form.intervalMinutes.value in ["15", "30", "60"]
  {
  }

  /** A bad field is reported with the schema's message for that field. */
  lemma ValidateMessages(form: RoomForm)
    ensures form.number == Some("") ==>
      Validate(form).Err? && FieldError(Number, Some("Número da sala é obrigatório")) in Validate(form).error
    ensures form.startTime == Some("") ==>
      Validate(form).Err? && FieldError(StartTime, Some("Horário de abertura é obrigatório")) in Validate(form).error
    ensures form.endTime == Some("") ==>
      Validate(form).Err? && FieldError(EndTime, Some("Horário de fechamento é obrigatório")) in Validate(form).error
    ensures (form.intervalMinutes.None? || form.intervalMinutes.value !in IntervalChoices) ==>
      Validate(form).Err? && FieldError(IntervalMinutes, Some("Selecione um intervalo válido")) in Validate(form).error
  {
    ValidateIff(form);
    var a := RequiredText(Number, form.number, "Número da sala é obrigatório");
    var b := RequiredText(StartTime, form.startTime, "Horário de abertura é obrigatório");
    var c := RequiredText(EndTime, form.endTime, "Horário de fechamento é obrigatório");
    var d := IntervalChoice(form.intervalMinutes);
    assert a + b + c + d == a + (b + (c + d));
    assert (a + b) + c + d == (a + b) + (c + d);
  }

  /** The schema never compares the two times: swapping them keeps a form valid, so a
      closing time at or before the opening time is accepted. */
  lemma TimesNotCompared(form: RoomForm)
    ensures Validate(form).Ok? <==> Validate(form.(startTime := form.endTime, endTime := form.startTime)).Ok?
  {
    ValidateIff(form);
    ValidateIff(form.(startTime := form.endTime, endTime := form.startTime));
  }

  /** The request sent on submit: the interval is `parseInt` of the chosen string, `None`
      standing for `NaN`. */
  datatype CreateRoomRequest = CreateRoomRequest(number: string, startTime: string, endTime: string, intervalMinutes: Option<nat>)

  /** The request `handleCreateRoom` always sends: the form's three texts, and an interval
      that is `NaN` exactly when the chosen text has no leading digit. */
  function Submit(data: ValidForm): (req: CreateRoomRequest)
    ensures req.number == data.number && req.startTime == data.startTime && req.endTime == data.endTime
    ensures req.intervalMinutes.None? <==> (data.intervalMinutes == [] || !IsDigit(data.intervalMinutes[0]))
  {
    CreateRoomRequest(data.number, data.startTime, data.endTime, ParseIntPrefix(data.intervalMinutes))
  }

  /** A toast shown after the request. */
  datatype Toast = SuccessToast(message: string) | ErrorToast(message: string)

  /** What `handleCreateRoom` does once the request settles. */
  datatype SubmitEffects = SubmitEffects(toast: Toast, formReset: bool, onSuccessCalled: bool, closed: bool)

  /** `handleCreateRoom` with the mutation's outcome: on success the success toast, the form
      reset, `onSuccess` and `onClose`; on failure only the error toast, the modal stays
      open with its values. */
  function HandleCreateRoom(data: ValidForm, created: bool): (r: (CreateRoomRequest, SubmitEffects))
    ensures r.0 == Submit(data)
    ensures r.1.closed <==> created
    ensures r.1.formReset == r.1.closed && r.1.onSuccessCalled == r.1.closed
    ensures r.1.toast.SuccessToast? <==> created
    ensures created ==> r.1.toast.message == "Sala criada com sucesso!"
    ensures !created ==> r.1.toast.message == "Erro ao criar sala. Tente novamente."
  {
    var effects :=
      if created then SubmitEffects(SuccessToast("Sala criada com sucesso!"), true, true, true)
      else SubmitEffects(ErrorToast("Erro ao criar sala. Tente novamente."), false, false, false);
    (Submit(data), effects)
  }

  /** Every accepted form yields a request whose interval is 15, 30 or 60 and whose other
      fields are the form's own. */
  lemma SubmittedInterval(form: RoomForm)
    requires Validate(form).Ok?
    ensures var data := Validate(form).value;
      && Submit(data).intervalMinutes.Some?
      && Submit(data).intervalMinutes.value in {15, 30, 60}
      && Submit(data).number == data.number
      && Submit(data).startTime == data.startTime
      && Submit(data).endTime == data.endTime
      && (data.intervalMinutes == "15" ==> Submit(data).intervalMinutes == Some(15))
      && (data.intervalMinutes == "30" ==> Submit(data).intervalMinutes == Some(30))
      && (data.intervalMinutes == "60" ==> Submit(data).intervalMinutes == Some(60))
  {
    var data := Validate(form).value;
    ValidateIff(form);
    ChoiceParses();
  }

  lemma ChoiceParses()
    ensures ParseIntPrefix("15") == Some(15)
    ensures ParseIntPrefix("30") == Some(30)
    ensures ParseIntPrefix("60") == Some(60)
  {
    LeadingDigitsOfDigits("15");
    LeadingDigitsOfDigits("30");
    LeadingDigitsOfDigits("60");
    assert "15"[..1] == "1" && "30"[..1] == "3" && "60"[..1] == "6";
    assert "1"[..0] == [] && "3"[..0] == [] && "6"[..0] == [];
    assert DigitsValue("1") == 1 && DigitsValue("3") == 3 && DigitsValue("6") == 6;
  }

  /** The default form is invalid only for its three empty fields: its interval is fine. */
  lemma DefaultFormInterval()
    ensures Validate(DefaultForm).Err?
    ensures FieldError(IntervalMinutes, Some("Selecione um intervalo válido")) !in Validate(DefaultForm).error
    ensures |Validate(DefaultForm).error| == 3
  {
  }

  /** `intervalMinutes === '60' ? '1 hora' : `${intervalMinutes} minutos``; an unset
      value prints as "undefined". */
  function SummaryLabel(intervalMinutes: Option<string>): (s: string)
    ensures intervalMinutes == Some("60") ==> s == "1 hora"
    ensures intervalMinutes.Some? && intervalMinutes.value != "60" ==> s == intervalMinutes.value + " minutos"
    ensures intervalMinutes.None? ==> s == "undefined minutos"
  {
    if intervalMinutes == Some("60") then "1 hora"
    else (if intervalMinutes.Some? then intervalMinutes.value else "undefined") + " minutos"
  }
}
