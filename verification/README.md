# Heart-rate sample companion: report and message handling

This project models the companion (phone) side of the heart-rate sampling
app: the `ViewController` that receives messages from the watch, keeps the
user's age and gender, and turns a batch of sample lines into the CSV report
that is mailed as `Sample.csv`.

Four modules:

- `Options`: the optional value the readers and searches return.
- `Text`: string helpers: concatenation of lines, joining and splitting on a
  separator, character search and counting, and Swift's `String(Int)`
  decimal rendering with a parser for it.
- `Report`: the CSV serialiser `convertDataToString`. It has a functional
  definition (`BuildReport`) and an imperative version that follows the
  source's loop (`ConvertDataToString`). Its partner is a reader
  (`ParseReport`) that takes a report apart again.
- `Controller`: the controller state as an immutable record
  `{age, gender, data, labelText, csv}`. It has pure transitions for the
  gender selector, the age input and the message handler. It also has a
  validity invariant that every sequence of events preserves.

The report has three header lines, followed by the received lines:

- `Age, Gender`
- the age in decimal, a comma and the gender
- the fixed eight-column header

The received lines are appended verbatim and in order, with no separator.
The lines produced by the watch end in their own line break, so
`ReportRowCount` states the line count under that assumption.

A message is a dictionary. Only the value under `"watch"` is looked at:

- a string becomes the label text;
- an array of strings replaces the data, sets the label to `Success` and
  rebuilds the report;
- anything else, or no such key, changes nothing.

The report is rebuilt whether or not the device can send mail. The
device's mail capability is a parameter (`canSendMail`), and it only decides
whether the mail form is presented.

## Model

| member | source | states |
|---|---|---|
| `Text.Decimal` | HeartRateApp/ViewController.swift:88 | `String(age)`: a minus sign for a negative age, then its digits most significant first; the properties below tie it to its reader `ParseDecimal` |
| `Text.DecimalRoundTrip` | HeartRateApp/ViewController.swift:88 | the decimal text written for the age (`String(age)`, minus sign for negatives) reads back as the same integer |
| `Text.DecimalCanonical` | HeartRateApp/ViewController.swift:88 | the age is written in canonical form: a minus sign exactly when it is negative, and no leading zero |
| `Text.DecimalPlain` | HeartRateApp/ViewController.swift:88 | the age's decimal text contains no comma and no line break, so it cannot disturb the metadata line |
| `Report.ColumnHeader` | HeartRateApp/ViewController.swift:89 | the fixed header line, spelled column by column; the `ColumnHeader…` lemmas below state its shape |
| `Report.MetaBlock` | HeartRateApp/ViewController.swift:88 | the first two lines of the report: the `Age, Gender` title, then the age in decimal, a comma, the gender and a line break |
| `Report.BuildReport` | HeartRateApp/ViewController.swift:83-93 | the report as a value: metadata block, header line, then the received lines back to back; `ConvertDataToString` and `ParseReport` are checked against it |
| `Report.ConvertDataToString` | HeartRateApp/ViewController.swift:83-93 | the buffer is reset before rebuilding: whatever it held, the result is the metadata block, the header line and the data lines concatenated in order |
| `Report.ReportRoundTrip` | HeartRateApp/ViewController.swift:88-92 | reading a built report back recovers the age, the gender and the concatenated data lines (gender without line break) |
| `Report.LayoutRoundTrip` | HeartRateApp/ViewController.swift:88-89 | the metadata block and any header line before a body are read back exactly, leaving the body intact |
| `Report.MetaValuesRoundTrip` | HeartRateApp/ViewController.swift:88 | the `age,gender` line is read back into the same age and gender, leaving what follows it untouched |
| `Report.ColumnHeaderIsJoin` | HeartRateApp/ViewController.swift:89 | the header line is exactly the eight column names joined by commas and closed by a line break |
| `Report.ColumnHeaderPrefix` | HeartRateApp/ViewController.swift:89 | the header line starts with `Exercise, Heart Rate` |
| `Report.ColumnHeaderColumns` | HeartRateApp/ViewController.swift:89 | the header line without its line break splits on commas into exactly the eight column names |
| `Report.ColumnHeaderLineBreak` | HeartRateApp/ViewController.swift:89 | the header line ends with a line break and contains no other |
| `Report.ColumnNamesPlain` | HeartRateApp/ViewController.swift:89 | there are eight column names, none containing a comma or a line break |
| `Report.MetaBlockLines` | HeartRateApp/ViewController.swift:88 | the metadata block is exactly two lines |
| `Report.ReportAppendLine` | HeartRateApp/ViewController.swift:90-92 | one more received line extends the report by exactly that line, with no separator inserted |
| `Report.ReportNoData` | HeartRateApp/ViewController.swift:88-92 | with no data the report is the header lines alone: three line breaks, the last at the end |
| `Report.ReportLineAt` | HeartRateApp/ViewController.swift:90-92 | line i stands verbatim right after the header and the lines received before it |
| `Report.ReportRowCount` | HeartRateApp/ViewController.swift:88-92 | when each received line is one row ending in its line break, the report has three plus one line per row |
| `Controller.Initial` | HeartRateApp/ViewController.swift:20-23 | the freshly loaded controller: age 0, gender `Male`, no data, no label text set and an empty report buffer |
| `Controller.InitialValid` | HeartRateApp/ViewController.swift:20-23 | the initial state has age 0, gender `Male`, no data and an empty buffer, and is valid |
| `Controller.SelectGender` | HeartRateApp/ViewController.swift:29-38 | segment 0 selects `Male`, segment 1 `Female`, any other index changes nothing; no other field changes |
| `Controller.SelectGenderPreservesValid` | HeartRateApp/ViewController.swift:29-38 | gender selection keeps the gender one of `Male` / `Female` and keeps the state valid |
| `Controller.SetAge` | HeartRateApp/ViewController.swift:41-44 | the age input sets the age and nothing else |
| `Controller.SetAgePreservesValid` | HeartRateApp/ViewController.swift:41-44 | changing the age keeps the state valid (the stored report is not rebuilt) |
| `Controller.Classify` | HeartRateApp/ViewController.swift:144-147 | the value under `"watch"` is a status exactly when it is a string, a batch exactly when it is an array of strings, and carries that value |
| `Controller.ClassifyReadsWatchKeyOnly` | HeartRateApp/ViewController.swift:144-147 | two messages that agree on the `"watch"` entry are handled alike; other keys are ignored |
| `Controller.ComposeMail` | HeartRateApp/ViewController.swift:100-106 | the mail form carries the report as its attachment, as `text/csv` named `Sample.csv` |
| `Controller.SendEmail` | HeartRateApp/ViewController.swift:96-116 | the report is rebuilt from the current age, gender and data, exactly as the serialiser writes it, and reads back as such; the form is presented exactly when mail can be sent; nothing else changes |
| `Controller.SendEmailIdempotent` | HeartRateApp/ViewController.swift:83-116 | sending twice leaves the same state as sending once: the report never accumulates |
| `Controller.Receive` | HeartRateApp/ViewController.swift:141-153 | a status sets only the label; a batch replaces the data wholesale, sets the label to `Success`, keeps age and gender, and leaves exactly the report the serialiser writes for the new lines; anything else changes nothing; a form is presented exactly for a batch when mail can be sent |
| `Controller.BatchForgetsHistory` | HeartRateApp/ViewController.swift:147-150 | after a batch, the earlier data, label and report make no difference: only age and gender carry over |
| `Controller.MailGateOnlyPresents` | HeartRateApp/ViewController.swift:112-116 | the resulting state is the same whether or not mail can be sent; without mail no form is presented |
| `Controller.ReceiveIdempotent` | HeartRateApp/ViewController.swift:141-153 | handling the same message twice leaves the state as handling it once |
| `Controller.ReceivePreservesValid` | HeartRateApp/ViewController.swift:141-153 | message handling keeps the state valid: the buffer is empty with no data, or is exactly the report the serialiser writes for the current data with some age and a selectable gender |
| `Controller.ValidReadsBack` | HeartRateApp/ViewController.swift:88-92 | in a valid state a non-empty buffer reads back as a report whose body is the current data lines and whose gender is `Male` or `Female` |
| `Controller.RunPreservesValid` | HeartRateApp/ViewController.swift:20-153 | every state reached from a valid one by any sequence of age, gender and message events is valid |

## Left out

- Session configuration, activation and the empty session callbacks (lines 53-60, 131-138) are platform messaging setup with no logic of their own.
- The health-data authorization request (lines 68-78) is a platform permission call with no observable effect on this state.
- Building, presenting and dismissing the mail form (lines 98-109, 115, 120-122) are user-interface effects. The form is modelled only as a `MailDraft` value carrying the subject, body, attachment, MIME type and file name.
- The UTF-8 encoding of the report and its forced unwrap (line 98) are left out. Encoding a string to UTF-8 without lossy conversion does not fail, so the unwrap cannot trap.
- The hop to the main queue (line 143) is concurrency. Message handling is modelled as one atomic step.
- The logging `print` of each message (line 142) is left out.
- `Controller.SetAge`: the slider's `Float` value and its truncation to `Int` (lines 42-43) are floating point. The model takes the already-truncated integer as input. The age label text is not modelled.
- The label's initial text comes from the storyboard, which is not part of this model. It is `None` until the controller sets it.
- `canSendMail` is a parameter, standing for the device's mail capability.
- The watch-side sampling and sending (the WatchKit extension) is not part of this model. The data lines are taken as arbitrary strings.
