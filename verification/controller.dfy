/**
 The companion-side state of `ViewController` in
 HeartRateApp/ViewController.swift, as an immutable record with pure
 transitions: the gender selector, the age input, and the handler for a
 message from the watch, which either shows a status text or takes a batch
 of CSV lines, rebuilds the report and offers it as a mail attachment.
 */
module Controller {
  import opened Options
  import opened Text
  import opened Report

  const Male: string := "Male"
  const Female: string := "Female"

  /** The label text shown after a batch of lines has arrived. */
  const SuccessText: string := "Success"

  /** The only message key the companion looks at. */
  const WatchKey: string := "watch"

  /** The two gender values the selector can produce. */
  predicate ValidGender(gender: string)
  {
    gender == Male || gender == Female
  }

  /**
   The controller's state: the user's age and gender, the last batch of
   lines from the watch, the label text (`None` while the controller has not
   set it) and the last report built.
   */
  datatype State = State(age: int, gender: string, data: seq<string>, labelText: Option<string>, csv: string)

  /** A freshly loaded controller: age 0, gender "Male", no data and an empty report buffer. */
  const Initial: State := State(0, Male, [], None, "")

  /**
   The report buffer either is still empty, with no data yet, or is exactly
   the report the serialiser writes for the current data, with some age and
   a gender the selector can produce.
   */
  ghost predicate CsvDescribes(csv: string, data: seq<string>)
  {
    (csv == "" && data == []) ||
    exists age: int, gender: string :: ValidGender(gender) && csv == BuildReport(age, gender, data)
  }

  /** What every reachable state satisfies. */
  ghost predicate Valid(st: State)
  {
    ValidGender(st.gender) && CsvDescribes(st.csv, st.data)
  }

  lemma InitialValid()
    ensures Valid(Initial)
    ensures Initial.age == 0 && Initial.gender == "Male" && Initial.data == [] && Initial.csv == ""
  {
  }

  /**
   The gender selector: segment 0 chooses "Male", segment 1 "Female", and
   any other index (including -1, no segment) keeps the current gender.
   */
  function SelectGender(st: State, index: int): (r: State)
    ensures r.(gender := st.gender) == st
    ensures index == 0 ==> r.gender == Male
    ensures index == 1 ==> r.gender == Female
    ensures index != 0 && index != 1 ==> r == st
  {
    match index
    case 0 => st.(gender := Male)
    case 1 => st.(gender := Female)
    case _ => st
  }

  /** The age input, already converted to an integer. */
  function SetAge(st: State, age: int): (r: State)
    ensures r.age == age
    ensures r.(age := st.age) == st
  {
    st.(age := age)
  }

  /** The value stored under a message key, by its runtime type. */
  datatype Value = StringValue(s: string) | StringArray(items: seq<string>) | OtherValue

  /** A message from the watch: a dictionary from keys to values. */
  type Message = map<string, Value>

  /** What the handler makes of a message. */
  datatype Payload = Status(text: string) | Batch(lines: seq<string>) | Other

  /**
   The runtime type test on the value under "watch": a string is a status
   text, an array of strings a batch of lines, and anything else (or no such
   key) is ignored.
   */
  function Classify(msg: Message): (p: Payload)
    ensures p.Status? <==> WatchKey in msg && msg[WatchKey].StringValue?
    ensures p.Batch? <==> WatchKey in msg && msg[WatchKey].StringArray?
    ensures p.Status? ==> p.text == msg[WatchKey].s
    ensures p.Batch? ==> p.lines == msg[WatchKey].items
  {
    if WatchKey !in msg then Other
    else match msg[WatchKey]
      case StringValue(s) => Status(s)
      case StringArray(items) => Batch(items)
      case OtherValue => Other
  }

  /** The mail the report is attached to. */
  datatype MailDraft = MailDraft(subject: string, body: string, attachment: string, mimeType: string, fileName: string)

  /** The result of a transition: the new state and the mail form presented, if any. */
  datatype Step = Step(state: State, presented: Option<MailDraft>)

  /** The mail form built around a report. */
  function ComposeMail(csv: string): (m: MailDraft)
    ensures m.attachment == csv
    ensures m.mimeType == MimeType && m.fileName == FileName
  {
    MailDraft("CSV File", "", csv, MimeType, FileName)
  }

  /**
   Sending the report: the report is rebuilt from the current age, gender
   and data first, and only then is presenting the form gated on the
   device's ability to send mail.
   */
  function SendEmail(st: State, canSendMail: bool): (r: Step)
    ensures r.state.(csv := st.csv) == st
    ensures r.state.csv == BuildReport(st.age, st.gender, st.data)
    ensures '\n' !in st.gender ==>
      ParseReport(r.state.csv) == Some(Parsed(st.age, st.gender, Concat(st.data)))
    ensures r.presented.Some? <==> canSendMail
    ensures r.presented.Some? ==> r.presented.value.attachment == r.state.csv
  {
    var csv := BuildReport(st.age, st.gender, st.data);
    assert '\n' !in st.gender ==> ParseReport(csv) == Some(Parsed(st.age, st.gender, Concat(st.data))) by {
      if '\n' !in st.gender {
        ReportRoundTrip(st.age, st.gender, st.data);
      }
    }
    var st' := st.(csv := csv);
    Step(st', if canSendMail then Some(ComposeMail(csv)) else None)
  }

  /**
   The message handler, taken as one atomic step: a status text replaces the
   label; a batch replaces the data, sets the label to "Success" and sends
   the report; anything else changes nothing.
   */
  function Receive(st: State, msg: Message, canSendMail: bool): (r: Step)
    ensures Classify(msg).Status? ==>
      r.state == st.(labelText := Some(Classify(msg).text)) && r.presented.None?
    ensures Classify(msg).Other? ==> r == Step(st, None)
    ensures Classify(msg).Batch? ==>
      && r.state.data == Classify(msg).lines
      && r.state.labelText == Some(SuccessText)
      && r.state.age == st.age && r.state.gender == st.gender
    ensures Classify(msg).Batch? ==>
      r.state.csv == BuildReport(st.age, st.gender, Classify(msg).lines)
    ensures Classify(msg).Batch? && '\n' !in st.gender ==>
      ParseReport(r.state.csv) == Some(Parsed(st.age, st.gender, Concat(Classify(msg).lines)))
    ensures r.presented.Some? <==> canSendMail && Classify(msg).Batch?
    ensures r.presented.Some? ==> r.presented.value.attachment == r.state.csv
  {
    match Classify(msg)
    case Status(s) => Step(st.(labelText := Some(s)), None)
    case Batch(lines) => SendEmail(st.(data := lines, labelText := Some(SuccessText)), canSendMail)
    case Other => Step(st, None)
  }

  /**
   A batch's outcome depends on the current age and gender only: the earlier
   data, label and report make no difference.
   */
  lemma BatchForgetsHistory(st1: State, st2: State, msg: Message, canSendMail: bool)
    requires Classify(msg).Batch?
    requires st1.age == st2.age && st1.gender == st2.gender
    ensures Receive(st1, msg, canSendMail) == Receive(st2, msg, canSendMail)
  {
  }

  /**
   The report is rebuilt on every batch whether or not mail can be sent:
   the device's mail capability affects only whether the form is presented.
   */
  lemma MailGateOnlyPresents(st: State, msg: Message)
    ensures Receive(st, msg, true).state == Receive(st, msg, false).state
    ensures Receive(st, msg, false).presented.None?
  {
  }

  /** Sending twice leaves the same report as sending once: the buffer never accumulates. */
  lemma SendEmailIdempotent(st: State, canSendMail: bool, canSendMail': bool)
    ensures SendEmail(SendEmail(st, canSendMail).state, canSendMail').state == SendEmail(st, canSendMail).state
  {
  }

  /** Handling the same message twice leaves the state as handling it once. */
  lemma ReceiveIdempotent(st: State, msg: Message, canSendMail: bool, canSendMail': bool)
    ensures Receive(Receive(st, msg, canSendMail).state, msg, canSendMail').state
      == Receive(st, msg, canSendMail).state
  {
  }

  /** Only the value under "watch" decides what the handler does. */
  lemma ClassifyReadsWatchKeyOnly(m1: Message, m2: Message)
    requires (WatchKey in m1) == (WatchKey in m2)
    requires WatchKey in m1 ==> m1[WatchKey] == m2[WatchKey]
    ensures Classify(m1) == Classify(m2)
  {
  }

  /** Every transition keeps the state valid. */
  lemma ReceivePreservesValid(st: State, msg: Message, canSendMail: bool)
    requires Valid(st)
    ensures Valid(Receive(st, msg, canSendMail).state)
  {
    var r := Receive(st, msg, canSendMail).state;
    if Classify(msg).Batch? {
      assert ValidGender(st.gender) && r.csv == BuildReport(st.age, st.gender, r.data);
    }
  }

  /**
   A valid buffer that is not empty reads back as a report of the current
   data, with a gender the selector can produce.
   */
  lemma ValidReadsBack(st: State)
    requires Valid(st)
    requires st.csv != ""
    ensures ParseReport(st.csv).Some?
    ensures ParseReport(st.csv).value.body == Concat(st.data)
    ensures ValidGender(ParseReport(st.csv).value.gender)
  {
    var age: int, gender: string :| ValidGender(gender) && st.csv == BuildReport(age, gender, st.data);
    ReportRoundTrip(age, gender, st.data);
  }

  lemma SelectGenderPreservesValid(st: State, index: int)
    requires Valid(st)
    ensures Valid(SelectGender(st, index))
  {
  }

  lemma SetAgePreservesValid(st: State, age: int)
    requires Valid(st)
    ensures Valid(SetAge(st, age))
  {
  }

  /** The user and watch events the controller reacts to. */
  datatype Event =
    | AgeChanged(age: int)
    | GenderChanged(index: int)
    | Received(msg: Message, canSendMail: bool)

  function Apply(st: State, e: Event): (r: State)
  {
    match e
    case AgeChanged(age) => SetAge(st, age)
    case GenderChanged(index) => SelectGender(st, index)
    case Received(msg, canSendMail) => Receive(st, msg, canSendMail).state
  }

  /** The state after a sequence of events, taken in order. */
  function Run(st: State, events: seq<Event>): (last: State)
    decreases |events|
  {
    if |events| == 0 then st else Run(Apply(st, events[0]), events[1..])
  }

  /** Every state reachable from the initial one is valid. */
  lemma {:induction false} RunPreservesValid(st: State, events: seq<Event>)
    requires Valid(st)
    ensures Valid(Run(st, events))
    decreases |events|
  {
    if |events| > 0 {
      match events[0] {
        case AgeChanged(age) => SetAgePreservesValid(st, age);
        case GenderChanged(index) => SelectGenderPreservesValid(st, index);
        case Received(msg, canSendMail) => ReceivePreservesValid(st, msg, canSendMail);
      }
      RunPreservesValid(Apply(st, events[0]), events[1..]);
    }
  }
}
