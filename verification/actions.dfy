/**
 * The create-task server action: guard on the signed-in user, validate the
 * submitted form in a fixed order, build the row to insert and report the
 * outcome as an ActionState.
 */
module Actions {
  import opened Wrappers
  import opened JsText
  import opened JsNumber
  import opened Tasks

  /** One value of submitted form data: `FormData.get` yields null for an
      absent field, otherwise a string or an uploaded File. */
  datatype FormEntry = Missing | Text(text: string) | Upload

  /** The four fields the create-task form submits. */
  datatype TaskForm = TaskForm(title: FormEntry, description: FormEntry, status: FormEntry, priority: FormEntry)

  /** The result reported to the form: both fields optional, as in the source. */
  datatype ActionState = ActionState(error: Option<string>, success: Option<bool>)

  function Failed(message: string): ActionState {
    ActionState(Some(message), None)
  }

  const Succeeded := ActionState(None, Some(true))

  const UnauthorizedMessage := "Unauthorized"
  const TitleRequiredMessage := "Title is required"
  const InvalidStatusMessage := "Invalid status"
  const InvalidPriorityMessage := "Invalid priority"

  /** `String(File)` in JavaScript. */
  const UploadString := "[object File]"

  /** `String(value ?? "")`: an absent field reads as the empty string, text
      as itself and a File as "[object File]". */
  function AsString(v: FormEntry): (s: string)
    ensures v.Missing? ==> s == []
    ensures v.Text? ==> s == v.text
    ensures v.Upload? ==> s == UploadString
  {
    match v
    case Missing => ""
    case Text(s) => s
    case Upload => UploadString
  }

  /** `Number(value)`: `Number(null)` is 0, strings go through StringToNumber
      and a File is first turned into its string, which is not a numeral. */
  function ToNumber(v: FormEntry): (n: Number)
    ensures v.Missing? ==> n == Finite(0.0)
    ensures v.Text? ==> n == StringToNumber(v.text)
    ensures v.Upload? ==> n == NaN
  {
    match v
    case Missing => Finite(0.0)
    case Text(s) => StringToNumber(s)
    case Upload =>
      assert UploadString[0] == '[';
      NonNumeralStart(UploadString);
      StringToNumber(UploadString)
  }

  /** Strict equality with one of the four status names: the raw entry is
      not trimmed, and a File never matches. */
  predicate IsTaskStatus(v: FormEntry)
    ensures IsTaskStatus(v) <==> v.Text? && v.text in StatusNames
  {
    v.Text? && ParseStatus(v.text).Some?
  }

  /** IsTaskStatus accepts exactly the task status domain. */
  lemma IsTaskStatusExactly(v: FormEntry)
    ensures IsTaskStatus(v) <==> v.Text? && v.text in StatusNames
    ensures IsTaskStatus(v) <==> exists s: TaskStatus :: v == Text(StatusName(s))
  {
    if IsTaskStatus(v) {
      var s := ParseStatus(v.text).value;
      assert v == Text(StatusName(s));
    }
    forall s: TaskStatus ensures v == Text(StatusName(s)) ==> IsTaskStatus(v) {
      StatusNameRoundTrip(s);
    }
  }

  type Priority = p: int | 1 <= p <= 3 witness 1

  /** `toPriority`: the priority whose number the entry coerces to, or None
      when the coercion is not exactly 1, 2 or 3. */
  function ToPriority(v: FormEntry): (p: Option<Priority>)
    ensures p.Some? <==> ToNumber(v).Finite? && ToNumber(v).value in {1.0, 2.0, 3.0}
    ensures p.Some? ==> ToNumber(v) == Finite(p.value as real)
  {
    PriorityOf(ToNumber(v))
  }

  /** The priority a number is exactly equal to, if any. */
  function PriorityOf(n: Number): (r: Option<Priority>)
    ensures r.Some? <==> n.Finite? && n.value in {1.0, 2.0, 3.0}
    ensures r.Some? ==> n == Finite(r.value as real)
  {
    if n == Finite(1.0) then Some(1)
    else if n == Finite(2.0) then Some(2)
    else if n == Finite(3.0) then Some(3)
    else None
  }

  /** The row `createTask` inserts into `tasks`; the store assigns the id,
      the creation time and an absent summary. */
  datatype NewTaskRow = NewTaskRow(
    userId: UserId,
    title: string,
    description: Option<string>,
    status: TaskStatus,
    priority: Priority)

  /** What the store answers to an insert. */
  datatype InsertOutcome = InsertOk | InsertError(message: string)

  /** The insert issued, if any, and the state reported to the form. */
  datatype CreateResult = CreateResult(insert: Option<NewTaskRow>, state: ActionState)

  /** Trimmed description, or None when nothing but whitespace was given. */
  function NormalizeDescription(v: FormEntry): (d: Option<string>)
    ensures d.None? <==> AllWhitespace(AsString(v))
    ensures d.Some? ==> d.value == Trim(AsString(v))
  {
    var trimmed := Trim(AsString(v));
    if Truthy(trimmed) then Some(trimmed) else None
  }

  /** The first failing check of the form, in the order title, status,
      priority; None when every field is acceptable. */
  function FormError(form: TaskForm): (e: Option<string>)
    ensures e.None? <==> !AllWhitespace(AsString(form.title)) && IsTaskStatus(form.status) && ToPriority(form.priority).Some?
    ensures AllWhitespace(AsString(form.title)) ==> e == Some(TitleRequiredMessage)
    ensures !AllWhitespace(AsString(form.title)) && !IsTaskStatus(form.status) ==> e == Some(InvalidStatusMessage)
    ensures (!AllWhitespace(AsString(form.title)) && IsTaskStatus(form.status) && ToPriority(form.priority).None?)
      ==> e == Some(InvalidPriorityMessage)
  {
    if !Truthy(Trim(AsString(form.title))) then Some(TitleRequiredMessage)
    else if !IsTaskStatus(form.status) then Some(InvalidStatusMessage)
    else if ToPriority(form.priority).None? then Some(InvalidPriorityMessage)
    else None
  }

  /** `createTask(prevState, formData)`, with the signed-in user and the
      store's answer to the insert as parameters. */
  function CreateTask(user: Option<UserId>, form: TaskForm, store: InsertOutcome): (r: CreateResult)
    // the reported state always carries exactly one of an error and a success flag
    ensures r.state.error.Some? != r.state.success.Some?
    ensures r.state.success.Some? ==> r.state == Succeeded
    // a row is written only for a signed-in user and a form passing every check
    ensures r.insert.Some? <==> user.Some? && FormError(form).None?
    ensures user.None? ==> r == CreateResult(None, Failed(UnauthorizedMessage))
    ensures user.Some? && FormError(form).Some? ==> r == CreateResult(None, Failed(FormError(form).value))
    // the row holds the caller's id and the normalized, validated fields
    ensures r.insert.Some? ==>
      var row := r.insert.value;
      && row.userId == user.value
      && row.title == Trim(AsString(form.title)) && row.title != []
      && row.description == NormalizeDescription(form.description)
      && form.status == Text(StatusName(row.status))
      && ToNumber(form.priority) == Finite(row.priority as real)
    // the store's answer decides the report once the row is sent
    ensures r.insert.Some? && store.InsertError? ==> r.state == Failed(store.message)
    ensures r.insert.Some? && store.InsertOk? ==> r.state == Succeeded
  {
    if user.None? then CreateResult(None, Failed(UnauthorizedMessage))
    else
      var title := Trim(AsString(form.title));
      var description := Trim(AsString(form.description));
      if !Truthy(title) then CreateResult(None, Failed(TitleRequiredMessage))
      else if !IsTaskStatus(form.status) then CreateResult(None, Failed(InvalidStatusMessage))
      else
        var priority := ToPriority(form.priority);
        if priority.None? then CreateResult(None, Failed(InvalidPriorityMessage))
        else
          var status := ParseStatus(form.status.text).value;
          var row := NewTaskRow(user.value, title, if Truthy(description) then Some(description) else None,
                                status, priority.value);
          match store
          case InsertError(message) => CreateResult(Some(row), Failed(message))
          case InsertOk => CreateResult(Some(row), Succeeded)
  }

  /** Without a signed-in user the outcome is the same whatever was
      submitted and whatever the store would answer, and nothing is written. */
  lemma UnauthorizedIgnoresInput(f1: TaskForm, s1: InsertOutcome, f2: TaskForm, s2: InsertOutcome)
    ensures CreateTask(None, f1, s1) == CreateTask(None, f2, s2)
    ensures CreateTask(None, f1, s1).insert.None?
  {
  }

  /** The title check comes first: a blank title is reported whatever the
      status and priority fields hold. */
  lemma BlankTitleWins(user: UserId, form: TaskForm, store: InsertOutcome)
    requires AllWhitespace(AsString(form.title))
    ensures CreateTask(Some(user), form, store) == CreateResult(None, Failed(TitleRequiredMessage))
  {
  }

  /** A row written by CreateTask satisfies the task invariants: a trimmed
      non-empty title, and a description that is absent or trimmed and
      non-empty. */
  lemma CreatedRowWellFormed(user: Option<UserId>, form: TaskForm, store: InsertOutcome)
    requires CreateTask(user, form, store).insert.Some?
    ensures var row := CreateTask(user, form, store).insert.value;
      && row.title != [] && Trim(row.title) == row.title
      && (row.description.Some? ==> row.description.value != [] && Trim(row.description.value) == row.description.value)
  {
    var row := CreateTask(user, form, store).insert.value;
    TrimIdempotent(AsString(form.title));
    TrimIdempotent(AsString(form.description));
  }

  /** A run of decimal digits (leading zeros allowed), with any whitespace
      around it, is read as the priority it denotes when that is 1, 2 or 3,
      and rejected otherwise. */
  lemma DecimalPriority(w1: string, digits: string, w2: string)
    requires AllWhitespace(w1) && AllWhitespace(w2)
    requires digits != [] && AllDigits(digits, 10)
    ensures var n := DigitsValue(digits, 10);
      ToPriority(Text(w1 + digits + w2)) == (if 1 <= n <= 3 then Some(n as Priority) else None)
  {
    NumberIgnoresPadding(w1, digits, w2);
    DigitIsNotWhitespace(digits[0]);
    DigitIsNotWhitespace(digits[|digits| - 1]);
    TrimOfTrimmed(digits);
    DigitsAreNumeral(digits);
    assert ToNumber(Text(w1 + digits + w2)) == Finite(DigitsValue(digits, 10) as real);
    PriorityOfNatural(DigitsValue(digits, 10));
  }

  lemma PriorityOfNatural(n: nat)
    ensures PriorityOf(Finite(n as real)) == (if 1 <= n <= 3 then Some(n as Priority) else None)
  {
  }

  /** Every valid submission from a signed-in user (a trimmed non-empty
      title, no description, any status, priority 1, 2 or 3 written in
      decimal) inserts exactly those values and reports success. */
  lemma ValidSubmission(user: UserId, title: string, status: TaskStatus, priority: Priority)
    requires title != [] && Trim(title) == title
    ensures CreateTask(Some(user), TaskForm(Text(title), Missing, Text(StatusName(status)), Text(DecimalString(priority))), InsertOk)
         == CreateResult(Some(NewTaskRow(user, title, None, status, priority)), Succeeded)
  {
    var form := TaskForm(Text(title), Missing, Text(StatusName(status)), Text(DecimalString(priority)));
    DecimalRoundTrip(priority);
    assert ToNumber(form.priority) == Finite(priority as real);
    PriorityOfNatural(priority);
    StatusNameRoundTrip(status);
    assert !AllWhitespace(AsString(form.title));
    assert IsTaskStatus(form.status);
    assert ToPriority(form.priority) == Some(priority);
    assert FormError(form).None?;
    var r := CreateTask(Some(user), form, InsertOk);
    var row := r.insert.value;
    assert row.title == title;
    assert row.description == None;
    assert row.priority == priority;
    assert row.status == status by { StatusNameInjective(row.status, status); }
    assert r.state == Succeeded;
  }

  /** The priority field is as lenient as Number(): "0x3" is priority 3. */
  lemma HexPriority()
    ensures ToPriority(Text("0x3")) == Some(3)
  {
    PriorityOfNatural(3);
    HexExample();
  }

  /** A word starting with a lower-case letter, a missing field and an
      uploaded File are not priorities. */
  lemma NonNumericPriority(word: string)
    requires word != [] && 'a' <= word[0] <= 'z'
    ensures ToPriority(Text(word)) == None
    ensures ToPriority(Missing) == None
    ensures ToPriority(Upload) == None
  {
    NonNumeralStart(word);
  }
}
