/** The leave-request form and its submit handler. */
module LeaveRequestForm {
  import opened Types
  import LeaveStore
  import Calendar

  /** The date-picker selection: either end may be unset. */
  datatype DateRange = DateRange(from: Option<Date>, to: Option<Date>)

  /** The signed-in account; only its local account id is used here. */
  datatype Account = Account(localAccountId: UserId)

  /** The outside calls `handleSubmit` makes, in the order it makes them. */
  datatype Effect =
    | GetToken
    | AddRequest(draft: RequestDraft)
    | CreateEvent(startDate: Date, endDate: Date, leaveType: string, notes: string, accessToken: string)

  /** How a submission ended; `CalendarFailed` stands for the uncaught rejection of a failed calendar POST. */
  datatype SubmitOutcome = MissingInput | NoAccessToken | Submitted | CalendarFailed

  /** Both ends of the range and an account are present. */
  predicate InputsPresent(date: Option<DateRange>, account: Option<Account>) {
    date.Some? && date.value.from.Some? && date.value.to.Some? && account.Some?
  }

  /** The calls `handleSubmit` makes, given the form state, the account and the token `getToken` yields. */
  function SubmitEffects(date: Option<DateRange>, account: Option<Account>, accessToken: Option<string>,
                         leaveType: LeaveType, notes: string): seq<Effect>
  {
    if !InputsPresent(date, account) then []
    else if !HasToken(accessToken) then [GetToken]
    else
      var startDate, endDate := date.value.from.value, date.value.to.value;
      [ GetToken,
        AddRequest(RequestDraft(account.value.localAccountId, startDate, endDate, leaveType, Some(notes))),
        CreateEvent(startDate, endDate, leaveType.Name(), notes, accessToken.value) ]
  }

  /** Missing dates or account: no call at all, in particular no token request. */
  lemma MissingInputMakesNoCall(date: Option<DateRange>, account: Option<Account>, accessToken: Option<string>,
                                leaveType: LeaveType, notes: string)
    ensures SubmitEffects(date, account, accessToken, leaveType, notes) == [] <==> !InputsPresent(date, account)
  {
  }

  /** Exactly one store append is made, and only when the inputs are present and a token came back. */
  lemma {:induction false} AtMostOneAppend(date: Option<DateRange>, account: Option<Account>, accessToken: Option<string>,
                                           leaveType: LeaveType, notes: string)
    ensures var effects := SubmitEffects(date, account, accessToken, leaveType, notes);
      (exists i :: 0 <= i < |effects| && effects[i].AddRequest?) <==> InputsPresent(date, account) && HasToken(accessToken)
    ensures var effects := SubmitEffects(date, account, accessToken, leaveType, notes);
      forall i, j :: 0 <= i < j < |effects| ==> !(effects[i].AddRequest? && effects[j].AddRequest?)
  {
    var effects := SubmitEffects(date, account, accessToken, leaveType, notes);
    if InputsPresent(date, account) && HasToken(accessToken) {
      assert effects[1].AddRequest?;
    }
  }

  /** The token is requested first, the store append comes before the calendar call, and the
      calendar call gets the appended record's dates, type and notes plus that token. */
  lemma {:induction false} AppendPrecedesCalendar(date: Option<DateRange>, account: Option<Account>, accessToken: Option<string>,
                                                  leaveType: LeaveType, notes: string, i: int)
    requires var effects := SubmitEffects(date, account, accessToken, leaveType, notes);
      0 <= i < |effects| && effects[i].CreateEvent?
    ensures var effects := SubmitEffects(date, account, accessToken, leaveType, notes);
      && effects[0] == GetToken
      && 0 < i - 1 && effects[i - 1].AddRequest?
      && var d := effects[i - 1].draft;
      && d.userId == account.value.localAccountId
      && effects[i] == CreateEvent(d.startDate, d.endDate, d.leaveType.Name(), d.notes.value, accessToken.value)
      && Calendar.CreateCalendarEvent(d.startDate, d.endDate, d.leaveType.Name(), d.notes.value, accessToken.value).Some?
  {
  }

  /** With dates, an account and a token, the appended record carries the account id and the form's
      start, end, leave type and notes, whatever the range. */
  lemma AppendCarriesFormFields(date: Option<DateRange>, account: Option<Account>, accessToken: Option<string>,
                                leaveType: LeaveType, notes: string)
    requires InputsPresent(date, account) && HasToken(accessToken)
    ensures var effects := SubmitEffects(date, account, accessToken, leaveType, notes);
      |effects| == 3 && effects[0] == GetToken
      && effects[1] == AddRequest(RequestDraft(account.value.localAccountId, date.value.from.value,
                                               date.value.to.value, leaveType, Some(notes)))
  {
  }

  /** Only the presence of the dates is checked: an end before the start is submitted as it is. */
  lemma BackwardRangeIsSubmitted(account: Account, startDate: Date, endDate: Date, token: string,
                                 leaveType: LeaveType, notes: string)
    requires endDate < startDate && token != ""
    ensures SubmitEffects(Some(DateRange(Some(startDate), Some(endDate))), Some(account), Some(token), leaveType, notes)[1]
         == AddRequest(RequestDraft(account.localAccountId, startDate, endDate, leaveType, Some(notes)))
  {
  }

  /** The form component's state: leave type, notes and the selected range. */
  class LeaveRequestFormView {
    var leaveType: LeaveType
    var notes: string
    var date: Option<DateRange>

    /** Initial state: vacation, no notes, a range from today to today. */
    constructor (today: Date)
      ensures leaveType == Vacation && notes == ""
      ensures date == Some(DateRange(Some(today), Some(today)))
    {
      leaveType := Vacation;
      notes := "";
      date := Some(DateRange(Some(today), Some(today)));
    }

    /** `handleSubmit`. The token `getToken` yields and whether the calendar POST succeeds are inputs.
        A failed calendar POST rejects the handler's promise, which nothing catches: the model returns
        `CalendarFailed` for it, no error is shown, and the appended record stays. */
    method HandleSubmit(store: LeaveStore.Store, account: Option<Account>, accessToken: Option<string>,
                        calendarPostSucceeds: bool)
      returns (effects: seq<Effect>, outcome: SubmitOutcome)
      requires store.Valid()
      modifies store
      ensures store.Valid()
      ensures effects == SubmitEffects(date, account, accessToken, leaveType, notes)
      ensures |effects| == 3 ==> store.requests == old(store.requests) + [LeaveStore.NewRecord(effects[1].draft, old(store.nextId))]
      ensures |effects| < 3 ==> store.requests == old(store.requests)
      ensures outcome == (if |effects| == 0 then MissingInput
                          else if |effects| == 1 then NoAccessToken
                          else if calendarPostSucceeds then Submitted else CalendarFailed)
    {
      if date.None? || date.value.from.None? || date.value.to.None? || account.None? {
        return [], MissingInput;
      }
      var startDate, endDate := date.value.from.value, date.value.to.value;
      effects := [GetToken];
      if !HasToken(accessToken) {
        return effects, NoAccessToken;
      }
      var draft := RequestDraft(account.value.localAccountId, startDate, endDate, leaveType, Some(notes));
      store.AddRequest(draft);
      effects := effects + [AddRequest(draft)];
      effects := effects + [CreateEvent(startDate, endDate, leaveType.Name(), notes, accessToken.value)];
      outcome := if calendarPostSucceeds then Submitted else CalendarFailed;
    }
  }
}
