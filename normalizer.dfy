/** The schema normaliser of the CSV analysis service: `mapToCDRRecord` and
    `mapToSMSRecord` turn one decoded CSV row (column name to cell text) into a
    call or message record. Each field is read through a list of column
    aliases with JavaScript's `a || b || c`: the first alias whose cell is
    present and non-empty wins, otherwise the field's default is used. */
module Normalizer {
  import opened Options
  import opened JsNumber

  /** One decoded CSV row: header name to cell text. */
  type Row = map<string, string>

  /** A cell is truthy in JavaScript exactly when its column exists and its text is not empty. */
  predicate Present(row: Row, key: string) {
    key in row && row[key] != ""
  }

  /** `aliases[i]` is the first alias of the list whose cell is present. */
  ghost predicate FirstPresentAt(row: Row, aliases: seq<string>, i: int) {
    && 0 <= i < |aliases|
    && Present(row, aliases[i])
    && forall j :: 0 <= j < i ==> !Present(row, aliases[j])
  }

  ghost predicate NonePresent(row: Row, aliases: seq<string>) {
    forall j :: 0 <= j < |aliases| ==> !Present(row, aliases[j])
  }

  /** Declarative meaning of `row[a0] || row[a1] || ... || default`. */
  ghost predicate ResolvesTo(row: Row, aliases: seq<string>, default: string, v: string) {
    || (exists i :: FirstPresentAt(row, aliases, i) && v == row[aliases[i]])
    || (NonePresent(row, aliases) && v == default)
  }

  /** Evaluates `row[aliases[0]] || row[aliases[1]] || ... || default`. */
  function FirstNonEmpty(row: Row, aliases: seq<string>, default: string): (r: string)
    ensures ResolvesTo(row, aliases, default, r)
    decreases |aliases|
  {
    if aliases == [] then default
    else if Present(row, aliases[0]) then
      assert FirstPresentAt(row, aliases, 0);
      row[aliases[0]]
    else
      var r := FirstNonEmpty(row, aliases[1..], default);
      ResolvesSkip(row, aliases, default, r);
      r
  }

  /** Skipping an alias whose cell is absent or empty does not change what the list resolves to. */
  lemma ResolvesSkip(row: Row, aliases: seq<string>, default: string, v: string)
    requires aliases != [] && !Present(row, aliases[0])
    ensures ResolvesTo(row, aliases, default, v) <==> ResolvesTo(row, aliases[1..], default, v)
  {
    var tail := aliases[1..];
    if i :| FirstPresentAt(row, aliases, i) && v == row[aliases[i]] {
      assert FirstPresentAt(row, tail, i - 1);
    }
    if i :| FirstPresentAt(row, tail, i) && v == row[tail[i]] {
      assert FirstPresentAt(row, aliases, i + 1);
    }
    if NonePresent(row, tail) {
      assert forall j :: 1 <= j < |aliases| ==> aliases[j] == tail[j - 1];
    }
  }

  /** Alias resolution is a function of the row: at most one value resolves. */
  lemma ResolvesToUnique(row: Row, aliases: seq<string>, default: string, v: string, w: string)
    requires ResolvesTo(row, aliases, default, v) && ResolvesTo(row, aliases, default, w)
    ensures v == w
  {
    if i :| FirstPresentAt(row, aliases, i) {
      assert !NonePresent(row, aliases);
      var k :| FirstPresentAt(row, aliases, k) && v == row[aliases[k]];
      var l :| FirstPresentAt(row, aliases, l) && w == row[aliases[l]];
      assert !(k < l) && !(l < k);
    }
  }

  /** For a three-alias field, the priority order written out: the first alias
      beats the second, the second beats the third, and nothing gives the default. */
  lemma ThreeAliasPriority(row: Row, aliases: seq<string>, default: string, v: string)
    requires |aliases| == 3 && ResolvesTo(row, aliases, default, v)
    ensures Present(row, aliases[0]) ==> v == row[aliases[0]]
    ensures !Present(row, aliases[0]) && Present(row, aliases[1]) ==> v == row[aliases[1]]
    ensures !Present(row, aliases[0]) && !Present(row, aliases[1]) && Present(row, aliases[2])
            ==> v == row[aliases[2]]
    ensures !Present(row, aliases[0]) && !Present(row, aliases[1]) && !Present(row, aliases[2])
            ==> v == default
  {
    if Present(row, aliases[0]) {
      ResolvesToUnique(row, aliases, default, v, row[aliases[0]]) by {
        assert FirstPresentAt(row, aliases, 0);
      }
    } else if Present(row, aliases[1]) {
      ResolvesToUnique(row, aliases, default, v, row[aliases[1]]) by {
        assert FirstPresentAt(row, aliases, 1);
      }
    } else if Present(row, aliases[2]) {
      ResolvesToUnique(row, aliases, default, v, row[aliases[2]]) by {
        assert FirstPresentAt(row, aliases, 2);
      }
    }
  }

  const CallIdAliases: seq<string> := ["callId", "call_id"]
  const CallFromAliases: seq<string> := ["fromNumber", "from_number", "caller"]
  const CallToAliases: seq<string> := ["toNumber", "to_number", "callee"]
  const DurationAliases: seq<string> := ["duration", "call_duration"]
  const CallTimeAliases: seq<string> := ["timestamp", "call_time"]
  const CallTypeAliases: seq<string> := ["callType", "call_type"]
  const LocationAliases: seq<string> := ["location", "cell_tower"]
  const ImeiAliases: seq<string> := ["imei", "device_id"]

  const MessageIdAliases: seq<string> := ["messageId", "message_id"]
  const MessageFromAliases: seq<string> := ["fromNumber", "from_number", "sender"]
  const MessageToAliases: seq<string> := ["toNumber", "to_number", "recipient"]
  const BodyAliases: seq<string> := ["message", "content", "text"]
  const SentTimeAliases: seq<string> := ["timestamp", "sent_time"]
  const MessageTypeAliases: seq<string> := ["messageType", "message_type"]

  /** Where a record's time comes from: the first present timestamp cell, kept as
      text (`new Date(text)` is not modelled), or the clock reading `Date.now()`. */
  datatype Moment = FromText(text: string) | FromClock(millis: nat)

  /** A call detail record; `duration` is `None` when `parseInt` yields NaN. */
  datatype CdrRecord = CdrRecord(
    callId: string,
    fromNumber: string,
    toNumber: string,
    duration: Option<int>,
    timestamp: Moment,
    callType: string,
    location: string,
    imei: string)

  datatype SmsRecord = SmsRecord(
    messageId: string,
    fromNumber: string,
    toNumber: string,
    message: string,
    timestamp: Moment,
    messageType: string)

  /** A normalised record of either kind, as handed to the classifier. */
  datatype CommRecord = Call(cdr: CdrRecord) | Message(sms: SmsRecord) {
    function Origin(): string {
      match this
      case Call(c) => c.fromNumber
      case Message(m) => m.fromNumber
    }
  }

  /** The fallback identifier `${Date.now()}-${Math.random()}`, given the clock
      reading and the text of the random number. */
  function GeneratedId(millis: nat, randomText: string): (id: string)
    ensures id != [] && '-' in id
  {
    assert (NatText(millis) + "-" + randomText)[|NatText(millis)|] == '-';
    NatText(millis) + "-" + randomText
  }

  /** `new Date(row[a0] || row[a1] || Date.now())`, without the date parsing. */
  function ResolveMoment(row: Row, aliases: seq<string>, millis: nat): (m: Moment)
    ensures m == FromClock(millis) <==> NonePresent(row, aliases)
    ensures m.FromText? ==> m.text != "" && ResolvesTo(row, aliases, "", m.text)
  {
    var text := FirstNonEmpty(row, aliases, "");
    if text == "" then FromClock(millis) else FromText(text)
  }

  /** `mapToCDRRecord`, with the clock reading and the random text as parameters. */
  function MapToCdrRecord(row: Row, millis: nat, randomText: string): (r: CdrRecord)
    ensures r.callId != ""
    ensures ResolvesTo(row, CallIdAliases, GeneratedId(millis, randomText), r.callId)
    ensures ResolvesTo(row, CallFromAliases, "", r.fromNumber)
    ensures ResolvesTo(row, CallToAliases, "", r.toNumber)
    ensures Present(row, "duration") ==> r.duration == ParseInt(row["duration"])
    ensures !Present(row, "duration") && Present(row, "call_duration")
            ==> r.duration == ParseInt(row["call_duration"])
    ensures NonePresent(row, DurationAliases) ==> r.duration == Some(0)
    ensures r.timestamp == FromClock(millis) <==> NonePresent(row, CallTimeAliases)
    ensures r.timestamp.FromText? ==> ResolvesTo(row, CallTimeAliases, "", r.timestamp.text)
    ensures ResolvesTo(row, CallTypeAliases, "voice", r.callType)
    ensures ResolvesTo(row, LocationAliases, "", r.location)
    ensures ResolvesTo(row, ImeiAliases, "", r.imei)
  {
    var callId := FirstNonEmpty(row, CallIdAliases, GeneratedId(millis, randomText));
    assert callId != "" by {
      if NonePresent(row, CallIdAliases) {
        ResolvesToUnique(row, CallIdAliases, GeneratedId(millis, randomText), callId, GeneratedId(millis, randomText));
      }
    }
    var fromNumber := FirstNonEmpty(row, CallFromAliases, "");
    var toNumber := FirstNonEmpty(row, CallToAliases, "");
    var timestamp := ResolveMoment(row, CallTimeAliases, millis);
    var callType := FirstNonEmpty(row, CallTypeAliases, "voice");
    var location := FirstNonEmpty(row, LocationAliases, "");
    var imei := FirstNonEmpty(row, ImeiAliases, "");
    CdrRecord(callId, fromNumber, toNumber, ParseDuration(row), timestamp, callType, location, imei)
  }

  /** `parseInt(row.duration || row.call_duration || '0')`. */
  function ParseDuration(row: Row): (d: Option<int>)
    ensures Present(row, "duration") ==> d == ParseInt(row["duration"])
    ensures !Present(row, "duration") && Present(row, "call_duration") ==> d == ParseInt(row["call_duration"])
    ensures NonePresent(row, DurationAliases) ==> d == Some(0)
  {
    var text := FirstNonEmpty(row, DurationAliases, "0");
    if Present(row, "duration") then
      assert FirstPresentAt(row, DurationAliases, 0);
      ResolvesToUnique(row, DurationAliases, "0", text, row["duration"]);
      ParseInt(text)
    else if Present(row, "call_duration") then
      assert FirstPresentAt(row, DurationAliases, 1);
      ResolvesToUnique(row, DurationAliases, "0", text, row["call_duration"]);
      ParseInt(text)
    else
      assert NonePresent(row, DurationAliases);
      ResolvesToUnique(row, DurationAliases, "0", text, "0");
      ParseIntZero();
      ParseInt(text)
  }

  /** `mapToSMSRecord`, with the clock reading and the random text as parameters. */
  function MapToSmsRecord(row: Row, millis: nat, randomText: string): (r: SmsRecord)
    ensures r.messageId != ""
    ensures ResolvesTo(row, MessageIdAliases, GeneratedId(millis, randomText), r.messageId)
    ensures ResolvesTo(row, MessageFromAliases, "", r.fromNumber)
    ensures ResolvesTo(row, MessageToAliases, "", r.toNumber)
    ensures ResolvesTo(row, BodyAliases, "", r.message)
    ensures r.timestamp == FromClock(millis) <==> NonePresent(row, SentTimeAliases)
    ensures r.timestamp.FromText? ==> ResolvesTo(row, SentTimeAliases, "", r.timestamp.text)
    ensures ResolvesTo(row, MessageTypeAliases, "text", r.messageType)
  {
    SmsRecord(
      messageId := FirstNonEmpty(row, MessageIdAliases, GeneratedId(millis, randomText)),
      fromNumber := FirstNonEmpty(row, MessageFromAliases, ""),
      toNumber := FirstNonEmpty(row, MessageToAliases, ""),
      message := FirstNonEmpty(row, BodyAliases, ""),
      timestamp := ResolveMoment(row, SentTimeAliases, millis),
      messageType := FirstNonEmpty(row, MessageTypeAliases, "text"))
  }

  /** The origin number of a call record follows `fromNumber`, then `from_number`,
      then `caller`, and is empty when the row has none of them. */
  lemma CallOriginPriority(row: Row, millis: nat, randomText: string)
    ensures var r := MapToCdrRecord(row, millis, randomText);
      && (Present(row, "fromNumber") ==> r.fromNumber == row["fromNumber"])
      && (!Present(row, "fromNumber") && Present(row, "from_number") ==> r.fromNumber == row["from_number"])
      && (!Present(row, "fromNumber") && !Present(row, "from_number") && Present(row, "caller")
          ==> r.fromNumber == row["caller"])
      && (!Present(row, "fromNumber") && !Present(row, "from_number") && !Present(row, "caller")
          ==> r.fromNumber == "")
  {
    ThreeAliasPriority(row, CallFromAliases, "", MapToCdrRecord(row, millis, randomText).fromNumber);
  }

  /** The origin number of a message record follows `fromNumber`, then
      `from_number`, then `sender`, and is empty when the row has none of them. */
  lemma MessageOriginPriority(row: Row, millis: nat, randomText: string)
    ensures var r := MapToSmsRecord(row, millis, randomText);
      && (Present(row, "fromNumber") ==> r.fromNumber == row["fromNumber"])
      && (!Present(row, "fromNumber") && Present(row, "from_number") ==> r.fromNumber == row["from_number"])
      && (!Present(row, "fromNumber") && !Present(row, "from_number") && Present(row, "sender")
          ==> r.fromNumber == row["sender"])
      && (!Present(row, "fromNumber") && !Present(row, "from_number") && !Present(row, "sender")
          ==> r.fromNumber == "")
  {
    ThreeAliasPriority(row, MessageFromAliases, "", MapToSmsRecord(row, millis, randomText).fromNumber);
  }

  /** A non-numeric duration cell stays NaN: it is not replaced by 0. */
  lemma NonNumericDurationIsNaN(row: Row)
    requires Present(row, "duration") && row["duration"] == "not-a-number"
    ensures ParseDuration(row) == None
  {
    ParseIntNotANumber();
  }
}
