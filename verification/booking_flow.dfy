/** The public booking flow: a reducer over the flow state, the back-navigation order of
    the steps, the step handlers as the sequences of actions they dispatch, the progress
    bar and the totals of the chosen services. Calls to the API are parameters: each
    handler receives what its call returned or the error it threw. */
module BookingFlow {
  import opened Wrappers
  import Seqs

  datatype Step =
    | PhoneInput
    | OtpVerification
    | Registration
    | ServiceSelection
    | TimeSelection
    | Confirmation
    | Success

  datatype Service = Service(id: string, name: string, duration: int, price: int)

  datatype TimeSlot = TimeSlot(id: string, time: string, available: bool)

  /** What the booking endpoint answered. */
  datatype BookingReceipt = BookingReceipt(id: string)

  /** The form; the selected date is a day number. */
  datatype FormData = FormData(
    phone: string,
    isNewClient: bool,
    clientName: string,
    clientEmail: string,
    selectedServices: seq<Service>,
    selectedDate: int,
    selectedTime: Option<TimeSlot>)

  /** `Partial<BookingFormData>`: the fields an `UPDATE_FORM` action carries. */
  datatype FormPatch = FormPatch(
    phone: Option<string>,
    isNewClient: Option<bool>,
    clientName: Option<string>,
    clientEmail: Option<string>,
    selectedServices: Option<seq<Service>>,
    selectedDate: Option<int>,
    selectedTime: Option<Option<TimeSlot>>)

  const NoFields := FormPatch(None, None, None, None, None, None, None)

  datatype State = State(
    currentStep: Step,
    formData: FormData,
    clientId: Option<string>,
    bookingResult: Option<BookingReceipt>,
    error: Option<string>,
    isLoading: bool)

  datatype Action =
    | SetStep(step: Step)
    | UpdateForm(data: FormPatch)
    | SetClientId(clientId: string)
    | SetBookingResult(booking: BookingReceipt)
    | SetError(message: Option<string>)
    | SetLoading(loading: bool)
    | Reset

  /** `initialState`; the form's date is the day the module was loaded. */
  function InitialState(loadedOn: int): (s: State)
    ensures s.currentStep == PhoneInput && s.formData.phone == "" && s.formData.selectedServices == []
    ensures s.formData.selectedTime.None? && s.error.None? && !s.isLoading
    ensures s.clientId.None? && s.bookingResult.None?
  {
    State(PhoneInput, FormData("", false, "", "", [], loadedOn, None), None, None, None, false)
  }

  /** `{ ...form, ...patch }`. */
  function Apply(form: FormData, patch: FormPatch): (r: FormData)
    ensures r.phone == patch.phone.GetOr(form.phone)
    ensures r.isNewClient == patch.isNewClient.GetOr(form.isNewClient)
    ensures r.clientName == patch.clientName.GetOr(form.clientName)
    ensures r.clientEmail == patch.clientEmail.GetOr(form.clientEmail)
    ensures r.selectedServices == patch.selectedServices.GetOr(form.selectedServices)
    ensures r.selectedDate == patch.selectedDate.GetOr(form.selectedDate)
    ensures r.selectedTime == patch.selectedTime.GetOr(form.selectedTime)
  {
    FormData(
      patch.phone.GetOr(form.phone),
      patch.isNewClient.GetOr(form.isNewClient),
      patch.clientName.GetOr(form.clientName),
      patch.clientEmail.GetOr(form.clientEmail),
      patch.selectedServices.GetOr(form.selectedServices),
      patch.selectedDate.GetOr(form.selectedDate),
      patch.selectedTime.GetOr(form.selectedTime))
  }

  /** An empty patch changes nothing, and applying a patch twice is applying it once. */
  lemma ApplyLaws(form: FormData, patch: FormPatch)
    ensures Apply(form, NoFields) == form
    ensures Apply(Apply(form, patch), patch) == Apply(form, patch)
  {
  }

  /** `bookingFlowReducer`. Each action touches its own fields; only moving between steps
      and editing the form clear the error, and reporting an error ends loading. */
  function Reduce(state: State, action: Action, loadedOn: int): (r: State)
    ensures action.Reset? ==> r == InitialState(loadedOn)
    ensures !action.Reset? ==>
              && r.currentStep == (if action.SetStep? then action.step else state.currentStep)
              && r.formData == (if action.UpdateForm? then Apply(state.formData, action.data) else state.formData)
              && r.clientId == (if action.SetClientId? then Some(action.clientId) else state.clientId)
              && r.bookingResult == (if action.SetBookingResult? then Some(action.booking) else state.bookingResult)
              && r.error == (if action.SetStep? || action.UpdateForm? then None
                             else if action.SetError? then action.message else state.error)
              && r.isLoading == (if action.SetError? then false
                                 else if action.SetLoading? then action.loading else state.isLoading)
  {
    match action
    case SetStep(step) => state.(currentStep := step, error := None)
    case UpdateForm(data) => state.(formData := Apply(state.formData, data), error := None)
    case SetClientId(id) => state.(clientId := Some(id))
    case SetBookingResult(booking) => state.(bookingResult := Some(booking))
    case SetError(message) => state.(error := message, isLoading := false)
    case SetLoading(loading) => state.(isLoading := loading)
    case Reset => InitialState(loadedOn)
  }

  /** The state after dispatching the actions one after another. A field no action
      touches keeps its value: the step without a step change, the form without a form
      patch, the client and the result without an action that sets them; a reset touches
      them all. */
  function Dispatch(state: State, actions: seq<Action>, loadedOn: int): (r: State)
    ensures (forall k :: 0 <= k < |actions| ==> !actions[k].SetStep? && !actions[k].Reset?) ==>
              r.currentStep == state.currentStep
    ensures (forall k :: 0 <= k < |actions| ==> !actions[k].UpdateForm? && !actions[k].Reset?) ==>
              r.formData == state.formData
    ensures (forall k :: 0 <= k < |actions| ==> !actions[k].SetClientId? && !actions[k].Reset?) ==>
              r.clientId == state.clientId
    ensures (forall k :: 0 <= k < |actions| ==> !actions[k].SetBookingResult? && !actions[k].Reset?) ==>
              r.bookingResult == state.bookingResult
    decreases |actions|
  {
    if |actions| == 0 then state else Dispatch(Reduce(state, actions[0], loadedOn), actions[1..], loadedOn)
  }

  lemma {:induction false} DispatchAppend(state: State, a: seq<Action>, b: seq<Action>, loadedOn: int)
    ensures Dispatch(state, a + b, loadedOn) == Dispatch(Dispatch(state, a, loadedOn), b, loadedOn)
    decreases |a|
  {
    if |a| == 0 {
      assert a + b == b;
    } else {
      assert (a + b)[1..] == a[1..] + b;
      DispatchAppend(Reduce(state, a[0], loadedOn), a[1..], b, loadedOn);
    }
  }

  /** Dispatching one, two or three actions. */
  lemma DispatchShort(state: State, x: Action, y: Action, z: Action, loadedOn: int)
    ensures Dispatch(state, [], loadedOn) == state
    ensures Dispatch(state, [x], loadedOn) == Reduce(state, x, loadedOn)
    ensures Dispatch(state, [x, y], loadedOn) == Reduce(Reduce(state, x, loadedOn), y, loadedOn)
    ensures Dispatch(state, [x, y, z], loadedOn) == Reduce(Reduce(Reduce(state, x, loadedOn), y, loadedOn), z, loadedOn)
  {
    var sx := Reduce(state, x, loadedOn);
    var sxy := Reduce(sx, y, loadedOn);
    assert [x][1..] == [];
    assert Dispatch(sx, [], loadedOn) == sx;
    assert [x, y][1..] == [y];
    assert Dispatch(sx, [y], loadedOn) == Dispatch(sxy, [], loadedOn);
    assert [x, y, z][1..] == [y, z];
    assert [y, z][1..] == [z];
    assert Dispatch(sx, [y, z], loadedOn) == Dispatch(sxy, [z], loadedOn);
    assert Dispatch(sxy, [z], loadedOn) == Reduce(sxy, z, loadedOn) by {
      assert [z][1..] == [];
    }
  }

  /** What the asynchronous handlers dispatch: loading on, the work, loading off. */
  function WhileLoading(work: seq<Action>): seq<Action> {
    [SetLoading(true)] + work + [SetLoading(false)]
  }

  /** The work of a handler: it neither touches the loading flag nor resets the flow. */
  predicate PlainWork(work: seq<Action>) {
    forall k :: 0 <= k < |work| ==> !work[k].SetLoading? && !work[k].Reset?
  }

  /** A handler's actions: loading raised first and lowered last, and plain work between. */
  predicate Bracketed(r: seq<Action>) {
    |r| >= 2 && r[0] == SetLoading(true) && r[|r| - 1] == SetLoading(false) && PlainWork(r[1..|r| - 1])
  }

  /** A handler's work runs with the loading flag raised, and the flag is lowered at the end
      whatever the work did. */
  lemma DispatchWhileLoading(state: State, work: seq<Action>, loadedOn: int)
    ensures Dispatch(state, WhileLoading(work), loadedOn)
         == Dispatch(state.(isLoading := true), work, loadedOn).(isLoading := false)
  {
    var x := SetLoading(true);
    DispatchAppend(state, [x] + work, [SetLoading(false)], loadedOn);
    DispatchAppend(state, [x], work, loadedOn);
    DispatchShort(state, x, x, x, loadedOn);
    DispatchShort(Dispatch(state.(isLoading := true), work, loadedOn), SetLoading(false), x, x, loadedOn);
  }

  // ---------------------------------------------------------------------------
  // Step order, back navigation and progress

  /** The steps a client walks through, new clients verifying and registering first. */
  function StepOrder(isNewClient: bool): (order: seq<Step>)
    ensures |order| >= 5
    ensures order[0] == PhoneInput && order[|order| - 1] == Step.Success
    ensures forall i, j :: 0 <= i < j < |order| ==> order[i] != order[j]
    ensures isNewClient <==> |order| == 7
    ensures !isNewClient ==> |order| == 5 && OtpVerification !in order && Registration !in order
  {
    if isNewClient then
      [PhoneInput, OtpVerification, Registration, ServiceSelection, TimeSelection, Confirmation, Step.Success]
    else
      [PhoneInput, ServiceSelection, TimeSelection, Confirmation, Step.Success]
  }

  /** `stepOrder.indexOf(step)`. */
  function StepIndex(isNewClient: bool, step: Step): (i: int)
    ensures -1 <= i < |StepOrder(isNewClient)|
    ensures i == -1 <==> step !in StepOrder(isNewClient)
    ensures 0 <= i ==> StepOrder(isNewClient)[i] == step
  {
    Seqs.FirstIndex(StepOrder(isNewClient), s => s == step)
  }

  /** `goBack`: the actions it dispatches. */
  function GoBackActions(state: State): seq<Action> {
    var i := StepIndex(state.formData.isNewClient, state.currentStep);
    if i > 0 then [SetStep(StepOrder(state.formData.isNewClient)[i - 1])] else []
  }

  /** `goBack`: one place down the client's step order, clearing the error; at the
      first step, or at a step outside the order, nothing changes. */
  function GoBack(state: State, loadedOn: int): (r: State)
    ensures var order := StepOrder(state.formData.isNewClient);
            var i := StepIndex(state.formData.isNewClient, state.currentStep);
            if i > 0 then r == state.(currentStep := order[i - 1], error := None)
                          && StepIndex(state.formData.isNewClient, r.currentStep) == i - 1
            else r == state
  {
    var order := StepOrder(state.formData.isNewClient);
    var i := StepIndex(state.formData.isNewClient, state.currentStep);
    var x := SetStep(if i > 0 then order[i - 1] else PhoneInput);
    DispatchShort(state, x, x, x, loadedOn);
    assert i > 0 ==> StepIndex(state.formData.isNewClient, order[i - 1]) == i - 1 by {
      if i > 0 {
        var j := StepIndex(state.formData.isNewClient, order[i - 1]);
        assert order[j] == order[i - 1];
      }
    }
    Dispatch(state, GoBackActions(state), loadedOn)
  }

  /** `progress`: the 1-based position of the step in the order, as a percentage of the
      order's length. */
  function Progress(state: State): (p: real)
    ensures 0.0 <= p <= 100.0
    ensures state.currentStep == Step.Success ==> p == 100.0
    ensures StepIndex(state.formData.isNewClient, state.currentStep) == -1 ==> p == 0.0
  {
    var n := |StepOrder(state.formData.isNewClient)|;
    var i := StepIndex(state.formData.isNewClient, state.currentStep);
    ((i + 1) as real / n as real) * 100.0
  }

  /** An existing client at the phone step has covered one step of five. */
  lemma ProgressAtStart(state: State)
    requires state.currentStep == PhoneInput
    ensures !state.formData.isNewClient ==> Progress(state) == 20.0
    ensures state.formData.isNewClient ==> Progress(state) == 100.0 / 7.0
  {
  }

  // ---------------------------------------------------------------------------
  // Handlers

  /** The selection handlers and their guards. */
  function ConfirmServiceSelectionActions(state: State): (r: seq<Action>)
    ensures r != [] <==> |state.formData.selectedServices| > 0
    ensures forall a :: a in r ==> a == SetStep(TimeSelection)
  {
    if |state.formData.selectedServices| > 0 then [SetStep(TimeSelection)] else []
  }

  function SelectDateActions(date: int): (r: seq<Action>)
    ensures |r| == 1 && r[0].UpdateForm?
    ensures forall f :: Apply(f, r[0].data) == f.(selectedDate := date, selectedTime := None)
  {
    [UpdateForm(NoFields.(selectedDate := Some(date), selectedTime := Some(None)))]
  }

  function SelectTimeActions(slot: TimeSlot): (r: seq<Action>)
    ensures |r| == 1 && r[0].UpdateForm?
    ensures forall f :: Apply(f, r[0].data) == f.(selectedTime := Some(slot))
  {
    [UpdateForm(NoFields.(selectedTime := Some(Some(slot))))]
  }

  function ConfirmTimeSelectionActions(state: State): (r: seq<Action>)
    ensures r != [] <==> state.formData.selectedTime.Some?
    ensures forall a :: a in r ==> a == SetStep(Confirmation)
  {
    if state.formData.selectedTime.Some? then [SetStep(Confirmation)] else []
  }

  /** The services step advances only with a service chosen; the time step only with a
      time chosen; choosing a date forgets the chosen time. */
  lemma SelectionGuards(state: State, date: int, loadedOn: int)
    ensures var r := Dispatch(state, ConfirmServiceSelectionActions(state), loadedOn);
            if |state.formData.selectedServices| > 0 then r.currentStep == TimeSelection && r.error.None?
            else r == state
    ensures var r := Dispatch(state, ConfirmTimeSelectionActions(state), loadedOn);
            if state.formData.selectedTime.Some? then r.currentStep == Confirmation && r.error.None?
            else r == state
    ensures var r := Dispatch(state, SelectDateActions(date), loadedOn);
            r.formData == state.formData.(selectedDate := date, selectedTime := None)
            && r.currentStep == state.currentStep && r.error.None?
  {
  }

  /** What an API call returned, or the error it threw; `message` is present when the
      thrown value was an `Error`. */
  datatype Call<T> = Returned(value: T) | Threw(message: Option<string>)

  /** The message shown for a thrown value. */
  function ErrorText<T>(c: Call<T>, fallback: string): (m: string)
    requires c.Threw?
    ensures c.message.Some? ==> m == c.message.value
    ensures c.message.None? ==> m == fallback
  {
    c.message.GetOr(fallback)
  }

  datatype PhoneCheck = PhoneCheck(exists_: bool, clientName: Option<string>)

  /** `submitPhone`: a known phone goes to the services, a new one gets a code sent. */
  function SubmitPhoneActions(phone: string, check: Call<PhoneCheck>, sendOtp: Call<()>): (r: seq<Action>)
    ensures Bracketed(r)
  {
    WhileLoading(
      if check.Threw? then [SetError(Some(ErrorText(check, "Erro ao verificar telefone")))]
      else if check.value.exists_ then
        [UpdateForm(NoFields.(phone := Some(phone))),
         UpdateForm(NoFields.(isNewClient := Some(false), clientName := Some(check.value.clientName.GetOr("")))),
         SetStep(ServiceSelection)]
      else if sendOtp.Threw? then
        [UpdateForm(NoFields.(phone := Some(phone))),
         UpdateForm(NoFields.(isNewClient := Some(true))),
         SetError(Some(ErrorText(sendOtp, "Erro ao verificar telefone")))]
      else
        [UpdateForm(NoFields.(phone := Some(phone))),
         UpdateForm(NoFields.(isNewClient := Some(true))),
         SetStep(OtpVerification)])
  }

  /** A known phone goes straight to the services, a new one to the code check; either way
      the phone is kept and loading ends. A failed check keeps the step and the form and
      shows the error. */
  lemma SubmitPhoneSpec(state: State, phone: string, check: Call<PhoneCheck>, sendOtp: Call<()>, loadedOn: int)
    ensures var r := Dispatch(state, SubmitPhoneActions(phone, check, sendOtp), loadedOn);
            !r.isLoading
            && (check.Threw? ==> r.currentStep == state.currentStep && r.formData == state.formData
                                 && r.error.Some?)
            && (check.Returned? ==> r.formData.phone == phone
                                    && r.formData.isNewClient == !check.value.exists_)
            && (check.Returned? && check.value.exists_ ==>
                  r.currentStep == ServiceSelection && r.error.None?
                  && r.formData.clientName == check.value.clientName.GetOr(""))
            && (check.Returned? && !check.value.exists_ && sendOtp.Returned? ==>
                  r.currentStep == OtpVerification && r.error.None?)
            && (check.Returned? && !check.value.exists_ && sendOtp.Threw? ==>
                  r.currentStep == state.currentStep && r.error.Some?)
  {
    var s := state.(isLoading := true);
    if check.Threw? {
      var x := SetError(Some(ErrorText(check, "Erro ao verificar telefone")));
      DispatchWhileLoading(state, [x], loadedOn);
      DispatchShort(s, x, x, x, loadedOn);
    } else {
      var x := UpdateForm(NoFields.(phone := Some(phone)));
      var y := if check.value.exists_
               then UpdateForm(NoFields.(isNewClient := Some(false), clientName := Some(check.value.clientName.GetOr(""))))
               else UpdateForm(NoFields.(isNewClient := Some(true)));
      var z := if check.value.exists_ then SetStep(ServiceSelection)
               else if sendOtp.Threw? then SetError(Some(ErrorText(sendOtp, "Erro ao verificar telefone")))
               else SetStep(OtpVerification);
      DispatchWhileLoading(state, [x, y, z], loadedOn);
      DispatchShort(s, x, y, z, loadedOn);
    }
  }

  datatype OtpCheck = OtpCheck(success: bool, clientId: Option<string>)

  /** `verifyOTP`: an accepted code records the client id, when there is one, and moves to
      registration. */
  function VerifyOtpActions(check: Call<OtpCheck>): (r: seq<Action>)
    ensures Bracketed(r)
  {
    WhileLoading(
      if check.Threw? then [SetError(Some(ErrorText(check, "Erro ao verificar código")))]
      else if !check.value.success then [SetError(Some("Código inválido"))]
      else if check.value.clientId.GetOr("") != "" then [SetClientId(check.value.clientId.value), SetStep(Registration)]
      else [SetStep(Registration)])
  }

  /** Only an accepted code moves on, to registration; anything else keeps the step and
      shows an error. */
  lemma VerifyOtpSpec(state: State, check: Call<OtpCheck>, loadedOn: int)
    ensures var r := Dispatch(state, VerifyOtpActions(check), loadedOn);
            !r.isLoading
            && (check.Returned? && check.value.success ==>
                  r.currentStep == Registration && r.error.None?
                  && r.clientId == (if check.value.clientId.GetOr("") != "" then check.value.clientId else state.clientId))
            && (!(check.Returned? && check.value.success) ==>
                  r.currentStep == state.currentStep && r.clientId == state.clientId && r.error.Some?)
  {
    var s := state.(isLoading := true);
    var work := if check.Threw? then [SetError(Some(ErrorText(check, "Erro ao verificar código")))]
                else if !check.value.success then [SetError(Some("Código inválido"))]
                else if check.value.clientId.GetOr("") != "" then [SetClientId(check.value.clientId.value), SetStep(Registration)]
                else [SetStep(Registration)];
    DispatchWhileLoading(state, work, loadedOn);
    DispatchShort(s, work[0], work[|work| - 1], work[0], loadedOn);
  }

  /** `registerClient`. */
  function RegisterClientActions(name: string, email: string, register: Call<string>): (r: seq<Action>)
    ensures Bracketed(r)
  {
    WhileLoading(
      if register.Threw? then [SetError(Some(ErrorText(register, "Erro ao registrar cliente")))]
      else [SetClientId(register.value),
            UpdateForm(NoFields.(clientName := Some(name), clientEmail := Some(email))),
            SetStep(ServiceSelection)])
  }

  /** A registered client is recorded and moves to the services; a failed registration
      keeps the step and the client. */
  lemma RegisterClientSpec(state: State, name: string, email: string, register: Call<string>, loadedOn: int)
    ensures var r := Dispatch(state, RegisterClientActions(name, email, register), loadedOn);
            !r.isLoading
            && (register.Returned? ==> r.clientId == Some(register.value) && r.currentStep == ServiceSelection
                                       && r.formData.clientName == name && r.formData.clientEmail == email
                                       && r.error.None?)
            && (register.Threw? ==> r.currentStep == state.currentStep && r.clientId == state.clientId
                                    && r.error.Some?)
  {
    var s := state.(isLoading := true);
    if register.Threw? {
      var x := SetError(Some(ErrorText(register, "Erro ao registrar cliente")));
      DispatchWhileLoading(state, [x], loadedOn);
      DispatchShort(s, x, x, x, loadedOn);
    } else {
      var x, y, z := SetClientId(register.value),
                     UpdateForm(NoFields.(clientName := Some(name), clientEmail := Some(email))),
                     SetStep(ServiceSelection);
      DispatchWhileLoading(state, [x, y, z], loadedOn);
      DispatchShort(s, x, y, z, loadedOn);
    }
  }

  /** `resendOTP`. */
  function ResendOtpActions(resend: Call<()>): (r: seq<Action>)
    ensures Bracketed(r)
  {
    WhileLoading(if resend.Threw? then [SetError(Some(ErrorText(resend, "Erro ao reenviar código")))] else [])
  }

  /** Resending a code changes nothing but the error a failure reports. */
  lemma ResendOtpSpec(state: State, resend: Call<()>, loadedOn: int)
    ensures Dispatch(state, ResendOtpActions(resend), loadedOn)
         == state.(isLoading := false,
                   error := if resend.Threw? then Some(ErrorText(resend, "Erro ao reenviar código")) else state.error)
  {
    var s := state.(isLoading := true);
    var x := SetError(Some(if resend.Threw? then ErrorText(resend, "Erro ao reenviar código") else ""));
    DispatchWhileLoading(state, if resend.Threw? then [x] else [], loadedOn);
    DispatchShort(s, x, x, x, loadedOn);
  }

  /** `confirmBooking`. */
  function ConfirmBookingActions(create: Call<BookingReceipt>): (r: seq<Action>)
    ensures Bracketed(r)
  {
    WhileLoading(
      if create.Threw? then [SetError(Some(ErrorText(create, "Erro ao confirmar agendamento")))]
      else [SetBookingResult(create.value), SetStep(Step.Success)])
  }

  /** A created booking is stored and the flow ends at SUCCESS; a failure keeps the step
      and the previous result. */
  lemma ConfirmBookingSpec(state: State, create: Call<BookingReceipt>, loadedOn: int)
    ensures var r := Dispatch(state, ConfirmBookingActions(create), loadedOn);
            !r.isLoading
            && (create.Returned? ==> r.bookingResult == Some(create.value) && r.currentStep == Step.Success
                                     && r.error.None?)
            && (create.Threw? ==> r.currentStep == state.currentStep && r.bookingResult == state.bookingResult
                                  && r.error.Some?)
  {
    var s := state.(isLoading := true);
    if create.Threw? {
      var x := SetError(Some(ErrorText(create, "Erro ao confirmar agendamento")));
      DispatchWhileLoading(state, [x], loadedOn);
      DispatchShort(s, x, x, x, loadedOn);
    } else {
      var x, y := SetBookingResult(create.value), SetStep(Step.Success);
      DispatchWhileLoading(state, [x, y], loadedOn);
      DispatchShort(s, x, y, y, loadedOn);
    }
  }

  // ---------------------------------------------------------------------------
  // Totals

  /** `totalPrice`: the prices of the chosen services added up; never negative when no
      price is. */
  function TotalPrice(services: seq<Service>): (r: int)
    ensures (forall i :: 0 <= i < |services| ==> services[i].price >= 0) ==> r >= 0
  {
    if |services| == 0 then 0 else TotalPrice(services[..|services| - 1]) + services[|services| - 1].price
  }

  /** `totalDuration`: the durations of the chosen services added up; never negative when
      no duration is. */
  function TotalDuration(services: seq<Service>): (r: int)
    ensures (forall i :: 0 <= i < |services| ==> services[i].duration >= 0) ==> r >= 0
  {
    if |services| == 0 then 0 else TotalDuration(services[..|services| - 1]) + services[|services| - 1].duration
  }

  /** The totals of two lists joined are the totals added, so the order of choosing does not
      matter to them. */
  lemma {:induction false} TotalsAppend(a: seq<Service>, b: seq<Service>)
    ensures TotalPrice(a + b) == TotalPrice(a) + TotalPrice(b)
    ensures TotalDuration(a + b) == TotalDuration(a) + TotalDuration(b)
    decreases |b|
  {
    if |b| == 0 {
      assert a + b == a;
    } else {
      assert (a + b)[..|a + b| - 1] == a + b[..|b| - 1];
      TotalsAppend(a, b[..|b| - 1]);
    }
  }
}
