/**
 * The clock phrase of the DateDayTimeYear module's `GetTime` handler.
 *
 * The handler reads the wall clock, rebinds `hours` to a number or a word
 * depending on the active language, and builds the answer in a cascade of
 * branches on the minutes. Here the clock reading is a parameter, the word
 * or number bound to `hours` is an `Hour`, and each branch of the cascade is
 * one constructor of a per-language phrase form that renders to the exact
 * string the handler speaks. Every form also has a meaning on a 12-hour
 * dial (`...Reading`), which is how the contracts say that the phrase tells
 * the time it was asked for.
 */
module SpokenTime {
  import opened Wrappers
  import opened Text
  import Dialog

  /** What `hours` is bound to after the rebinding: still an `int`, or a word. */
  datatype Hour = Num(n: nat) | Word(w: string)

  /** The one failure of the handler: adding an `int` to a `str` (TypeError). */
  datatype Error = TypeError

  predicate ValidClock(hours: int, minutes: int)
  {
    0 <= hours < 24 && 0 <= minutes < 60
  }

  /** How `hours` prints inside an f-string. */
  function Show(h: Hour): string
  {
    match h
    case Num(n) => NatToString(n)
    case Word(w) => w
  }

  /** The hour a listener hears: the number, or the hour a word stands for. */
  function HourValue(h: Hour): nat
  {
    match h
    case Num(n) => n
    case Word(w) =>
      if w in {"noon", "midi", "Mittag"} then 12
      else if w == "eins" then 1
      else 0
  }

  /**
   * The hour named is the given hour of the day: a word exactly (noon and
   * midnight are not interchangeable), a number on the 12-hour clock.
   */
  predicate NamesHour(h: Hour, hourOfDay: int)
  {
    if h.Word? then HourValue(h) == hourOfDay % 24 else HourValue(h) % 12 == hourOfDay % 12
  }

  /** Minutes past 12 o'clock on a 12-hour dial. */
  function Dial(hourValue: int, offset: int): (r: int)
    ensures 0 <= r < 720
  {
    (hourValue * 60 + offset) % 720
  }

  /** Hours that agree on a 12-hour clock put the hands in the same place. */
  lemma DialSameHour(a: int, b: int, offset: int)
    requires a % 12 == b % 12
    ensures Dial(a, offset) == Dial(b, offset)
  {
    var k := (a - b) / 12;
    assert a == b + 12 * k;
    assert a * 60 + offset == b * 60 + offset + 720 * k;
  }

  /** k minutes before the hour h is 60 - k minutes after the hour h - 1. */
  lemma DialBefore(h: int, k: int)
    ensures Dial(h, -k) == Dial(h - 1, 60 - k)
  {
    assert h * 60 - k == (h - 1) * 60 + (60 - k);
  }

  /** m minutes before an hour that agrees with hours + 1 is the clock time hours:(60 - m). */
  lemma NextHourDial(hourValue: int, hours: int, minutes: int)
    requires hourValue % 12 == (hours + 1) % 12
    ensures Dial(hourValue, minutes - 60) == Dial(hours, minutes)
  {
    DialSameHour(hourValue, hours + 1, minutes - 60);
    DialBefore(hours + 1, 60 - minutes);
  }

  /** Where the clock's hands stand at hours:minutes. */
  function ClockDial(hours: nat, minutes: nat): (r: int)
    ensures 0 <= r < 720
  {
    Dial(hours, minutes)
  }

  // ---------------------------------------------------------------- English

  datatype EnglishForm =
    | QuarterPast(h: Hour)
    | HalfPast(h: Hour)
    | QuarterTo(h: Hour)
    | OhMinutes(h: Hour, m: nat)        // "{h} o {m}"
    | MinutesPast(m: nat, h: Hour)      // "{m} past {h}"
    | HourMinutes(h: Hour, m: nat)      // "{h} {m}"
    | ItIs(h: Hour)                     // " It is {h}"
    | OClock(h: Hour)

  function EnglishRender(f: EnglishForm): string
  {
    match f
    case QuarterPast(h) => "quarter past " + Show(h)
    case HalfPast(h) => "half past " + Show(h)
    case QuarterTo(h) => "quarter to " + Show(h)
    case OhMinutes(h, m) => Show(h) + " o " + NatToString(m)
    case MinutesPast(m, h) => NatToString(m) + " past " + Show(h)
    case HourMinutes(h, m) => Show(h) + " " + NatToString(m)
    case ItIs(h) => " It is " + Show(h)
    case OClock(h) => Show(h) + " o'clock"
  }

  function EnglishReading(f: EnglishForm): int
  {
    match f
    case QuarterPast(h) => Dial(HourValue(h), 15)
    case HalfPast(h) => Dial(HourValue(h), 30)
    case QuarterTo(h) => Dial(HourValue(h), -15)
    case OhMinutes(h, m) => Dial(HourValue(h), m)
    case MinutesPast(m, h) => Dial(HourValue(h), m)
    case HourMinutes(h, m) => Dial(HourValue(h), m)
    case ItIs(h) => Dial(HourValue(h), 0)
    case OClock(h) => Dial(HourValue(h), 0)
  }

  /** English rebinding: noon, midnight, or the hour on a 12-hour clock. */
  function EnglishHour(hours: nat): (r: Hour)
    requires hours < 24
    ensures r == Word("noon") <==> hours == 12
    ensures r == Word("midnight") <==> hours == 0
    ensures r.Num? <==> hours % 12 != 0
    ensures r.Num? ==> 1 <= r.n <= 11
    ensures HourValue(r) % 12 == hours % 12
  {
    if hours == 12 then Word("noon")
    else if hours == 0 then Word("midnight")
    else Num(hours % 12)
  }

  /**
   * The English branch as written. It fails exactly at 0:45 and 12:45, where
   * `hours` is a word and the code adds 12 to it; otherwise the phrase reads
   * back as the current time, except "quarter to" at 10:45 and 22:45, and
   * names the hour it counts from, except "quarter to midnight" at 11:45.
   */
  function EnglishFormOf(hours: nat, minutes: nat): (r: Result<EnglishForm, Error>)
    requires ValidClock(hours, minutes)
    ensures r.Err? <==> minutes == 45 && hours % 12 == 0
    ensures r.Ok? && !(minutes == 45 && hours % 12 == 10) ==>
              EnglishReading(r.value) == ClockDial(hours, minutes)
    ensures r.Ok? && !(minutes == 45 && (hours % 12 == 10 || hours == 11)) ==>
              NamesHour(r.value.h, if minutes == 45 then hours + 1 else hours)
  {
    var hour := EnglishHour(hours);
    DialSameHour(HourValue(hour), hours, minutes);
    if minutes > 0 then
      if minutes == 15 then Ok(QuarterPast(hour))
      else if minutes == 30 then Ok(HalfPast(hour))
      else if minutes == 45 then
        match hour
        case Word(_) => Err(TypeError)
        case Num(h) =>
          if h + 12 == 23 then
            NextHourDial(0, hours, 45);
            Ok(QuarterTo(Word("midnight")))
          else if h + 1 == 11 then Ok(QuarterTo(Word("noon")))
          else
            NextHourDial(h + 1, hours, 45);
            Ok(QuarterTo(Num(h + 1)))
      else if 0 < minutes < 10 then
        if hour.Num? then Ok(OhMinutes(hour, minutes)) else Ok(MinutesPast(minutes, hour))
      else Ok(HourMinutes(hour, minutes))
    else if hour == Word("midnight") || hour == Word("noon") then Ok(ItIs(hour))
    else Ok(OClock(hour))
  }

  /** The four English quarter-to answers that go wrong, as written. */
  lemma EnglishQuarterToAsWritten()
    ensures EnglishFormOf(10, 45) == Ok(QuarterTo(Word("noon")))
    ensures EnglishFormOf(22, 45) == Ok(QuarterTo(Word("noon")))
    ensures EnglishFormOf(11, 45) == Ok(QuarterTo(Word("midnight")))
    ensures EnglishFormOf(0, 45).Err? && EnglishFormOf(12, 45).Err?
    ensures EnglishReading(QuarterTo(Word("noon"))) != ClockDial(10, 45)
    ensures !NamesHour(Word("midnight"), 11 + 1)
  {
  }

  /**
   * "quarter to" as evidently intended: the next hour of the 24-hour day,
   * named the way EnglishHour names an hour.
   */
  function EnglishQuarterTo(hours: nat): (r: EnglishForm)
    requires hours < 24
    ensures r.QuarterTo?
    ensures EnglishReading(r) == ClockDial(hours, 45)
    ensures NamesHour(r.h, hours + 1)
    ensures r.h == Word("noon") <==> hours == 11
    ensures r.h == Word("midnight") <==> hours == 23
  {
    if hours == 23 then QuarterTo(Word("midnight"))
    else if hours == 11 then QuarterTo(Word("noon"))
    else
      var h := (hours + 1) % 12;
      DialSameHour(h, hours + 1, -15);
      DialBefore(hours + 1, 15);
      QuarterTo(Num(h))
  }

  /** The English branch with EnglishQuarterTo in place of the faulty minute-45 case. */
  function EnglishFormIntended(hours: nat, minutes: nat): (r: EnglishForm)
    requires ValidClock(hours, minutes)
    ensures EnglishReading(r) == ClockDial(hours, minutes)
    ensures NamesHour(r.h, if minutes == 45 then hours + 1 else hours)
    ensures minutes != 45 ==> EnglishFormOf(hours, minutes) == Ok(r)
  {
    if minutes == 45 then EnglishQuarterTo(hours)
    else EnglishFormOf(hours, minutes).value
  }

  // ----------------------------------------------------------------- French

  datatype FrenchForm =
    | EtQuart(h: Hour)                   // "{h} {heures} et quart"
    | HourThirty(h: Hour, m: nat)        // "{h} {m}"
    | EtDemie(h: Hour)                   // "{h} heures et demie"
    | MoinsQuart(h: Hour, heures: bool)  // "{h} heures moins quart" / "{h} moins quart"
    | Moins(h: Hour, k: nat)             // "{h} {heures} moins {k}"
    | Et(h: Hour, m: nat)                // "{h} {heures} {m}"
    | Pile(h: Hour)                      // "{h} {heures}"

  /** "heures" after a number, nothing after midi or minuit. */
  function Heures(h: Hour): string
  {
    if h.Num? then "heures" else ""
  }

  function FrenchRender(f: FrenchForm): string
  {
    match f
    case EtQuart(h) => Show(h) + " " + Heures(h) + " et quart"
    case HourThirty(h, m) => Show(h) + " " + NatToString(m)
    case EtDemie(h) => Show(h) + " heures et demie"
    case MoinsQuart(h, heures) => Show(h) + (if heures then " heures moins quart" else " moins quart")
    case Moins(h, k) => Show(h) + " " + Heures(h) + " moins " + NatToString(k)
    case Et(h, m) => Show(h) + " " + Heures(h) + " " + NatToString(m)
    case Pile(h) => Show(h) + " " + Heures(h)
  }

  function FrenchReading(f: FrenchForm): int
  {
    match f
    case EtQuart(h) => Dial(HourValue(h), 15)
    case HourThirty(h, m) => Dial(HourValue(h), m)
    case EtDemie(h) => Dial(HourValue(h), 30)
    case MoinsQuart(h, _) => Dial(HourValue(h), -15)
    case Moins(h, k) => Dial(HourValue(h), -(k as int))
    case Et(h, m) => Dial(HourValue(h), m)
    case Pile(h) => Dial(HourValue(h), 0)
  }

  /**
   * French rebinding: up to half past, the current hour; after it, the next
   * one. 12 and 0 (resp. 11 and 23 after half past) become midi and minuit;
   * other hours stay on the 24-hour clock.
   */
  function FrenchHour(hours: nat, minutes: nat): (r: Hour)
    requires ValidClock(hours, minutes)
    ensures HourValue(r) == if minutes <= 30 then hours else (hours + 1) % 24
    ensures r.Word? <==> HourValue(r) % 12 == 0
    ensures r.Word? ==> r.w == (if HourValue(r) == 12 then "midi" else "minuit")
  {
    if minutes <= 30 then
      if hours == 12 then Word("midi")
      else if hours == 0 then Word("minuit")
      else Num(hours)
    else
      if hours + 1 == 12 then Word("midi")
      else if hours + 1 == 24 then Word("minuit")
      else Num(hours + 1)
  }

  /** The French branch; its phrase always reads back as the current time. */
  function FrenchFormOf(hours: nat, minutes: nat): (r: FrenchForm)
    requires ValidClock(hours, minutes)
    ensures FrenchReading(r) == ClockDial(hours, minutes)
    ensures NamesHour(r.h, if minutes <= 30 then hours else hours + 1)
    ensures minutes > 30 && minutes != 45 ==> r.Moins? && 1 <= r.k <= 29
  {
    var hour := FrenchHour(hours, minutes);
    if minutes > 0 then
      if minutes == 15 then EtQuart(hour)
      else if minutes == 30 then
        if hour.Num? && hour.n >= 13 then
          DialSameHour(hour.n % 12, hours, 30);
          HourThirty(Num(hour.n % 12), minutes)
        else if hour.Word? then HourThirty(hour, minutes)
        else EtDemie(hour)
      else if minutes == 45 then
        if hour.Num? && hour.n >= 13 then
          NextHourDial(hour.n % 12, hours, 45);
          MoinsQuart(Num(hour.n % 12), true)
        else
          NextHourDial(HourValue(hour), hours, 45);
          MoinsQuart(hour, false)
      else if minutes > 30 then
        NextHourDial(HourValue(hour), hours, minutes);
        Moins(hour, 60 - minutes)
      else Et(hour, minutes)
    else Pile(hour)
  }

  // ----------------------------------------------------------------- German

  datatype GermanForm =
    | ViertelNach(h: Hour)
    | Halb(h: Hour)
    | ViertelVor(h: Hour)
    | Vor(k: nat, h: Hour)     // "{k} vor {h}"
    | Nach(m: nat, h: Hour)    // "{m} nach {h}"
    | Uhr(h: Hour)             // "{h} Uhr"

  function GermanRender(f: GermanForm): string
  {
    match f
    case ViertelNach(h) => "viertel nach " + Show(h)
    case Halb(h) => "halb " + Show(h)
    case ViertelVor(h) => "viertel vor " + Show(h)
    case Vor(k, h) => NatToString(k) + " vor " + Show(h)
    case Nach(m, h) => NatToString(m) + " nach " + Show(h)
    case Uhr(h) => Show(h) + " Uhr"
  }

  /** "halb drei" is half past two: half an hour before the hour named. */
  function GermanReading(f: GermanForm): int
  {
    match f
    case ViertelNach(h) => Dial(HourValue(h), 15)
    case Halb(h) => Dial(HourValue(h), -30)
    case ViertelVor(h) => Dial(HourValue(h), -15)
    case Vor(k, h) => Dial(HourValue(h), -(k as int))
    case Nach(m, h) => Dial(HourValue(h), m)
    case Uhr(h) => Dial(HourValue(h), 0)
  }

  /**
   * German rebinding as written. Before half past, the current hour (12, 0
   * and 1 as words, others on the 24-hour clock); from half past on, the
   * next hour on the 12-hour clock, except that at exactly :30 the hours 11
   * and 23 are kept unchanged.
   */
  function GermanHour(hours: nat, minutes: nat): (r: Hour)
    requires ValidClock(hours, minutes)
    ensures minutes == 30 && (hours == 11 || hours == 23) ==> r == Num(hours)
    ensures !(minutes == 30 && (hours == 11 || hours == 23)) ==>
              HourValue(r) % 12 == (if minutes < 30 then hours else hours + 1) % 12
    ensures minutes < 30 && r.Num? ==> r.n == hours
    ensures minutes >= 30 && r.Num? && !(minutes == 30 && (hours == 11 || hours == 23)) ==> r.n == hours % 12 + 1
    ensures r == Word("Mittag") <==> (minutes < 30 && hours == 12) || (minutes > 30 && hours == 11)
    ensures r == Word("Mitternacht") <==> (minutes < 30 && hours == 0) || (minutes > 30 && hours == 23)
    ensures r == Word("eins") <==> (minutes < 30 && hours == 1) || (minutes >= 30 && hours == 0)
    ensures r.Word? ==> r.w in {"Mittag", "Mitternacht", "eins"}
  {
    if minutes < 30 then
      if hours == 12 then Word("Mittag")
      else if hours == 0 then Word("Mitternacht")
      else if hours == 1 then Word("eins")
      else Num(hours)
    else
      if hours + 1 == 12 then (if minutes != 30 then Word("Mittag") else Num(hours))
      else if hours + 1 == 24 then (if minutes != 30 then Word("Mitternacht") else Num(hours))
      else if hours + 1 == 1 then Word("eins")
      else Num(hours % 12 + 1)
  }

  /** The German minute phrases around a given hour. */
  function GermanPhraseWith(hour: Hour, minutes: nat): (r: GermanForm)
    requires minutes < 60
    ensures GermanReading(r) == Dial(HourValue(hour) - (if minutes >= 30 then 1 else 0), minutes)
    ensures r.h == hour
  {
    DialBefore(HourValue(hour), 60 - minutes);
    DialBefore(HourValue(hour), 30);
    DialBefore(HourValue(hour), 15);
    if minutes > 0 then
      if minutes == 15 then ViertelNach(hour)
      else if minutes == 30 then Halb(hour)
      else if minutes == 45 then ViertelVor(hour)
      else if minutes > 30 then Vor(60 - minutes, hour)
      else Nach(minutes, hour)
    else Uhr(hour)
  }

  /** The German branch as written: right everywhere but 11:30 and 23:30. */
  function GermanFormOf(hours: nat, minutes: nat): (r: GermanForm)
    requires ValidClock(hours, minutes)
    ensures !(minutes == 30 && (hours == 11 || hours == 23)) ==>
              GermanReading(r) == ClockDial(hours, minutes)
    ensures !(minutes == 30 && (hours == 11 || hours == 23)) ==>
              NamesHour(r.h, if minutes < 30 then hours else hours + 1)
  {
    var hour := GermanHour(hours, minutes);
    if minutes == 30 && (hours == 11 || hours == 23) then GermanPhraseWith(hour, minutes)
    else
      DialSameHour(HourValue(hour) - (if minutes >= 30 then 1 else 0), hours, minutes);
      GermanPhraseWith(hour, minutes)
  }

  /** At 11:30 the handler says "halb 11", which means 10:30. */
  lemma GermanHalfPastElevenAsWritten()
    ensures GermanRender(GermanFormOf(11, 30)) == "halb 11"
    ensures GermanRender(GermanFormOf(23, 30)) == "halb 23"
    ensures GermanReading(GermanFormOf(11, 30)) == ClockDial(10, 30)
  {
  }

  /** The German rebinding as evidently intended: at :30 the hour after 11 and 23 is 12. */
  function GermanHourIntended(hours: nat, minutes: nat): (r: Hour)
    requires ValidClock(hours, minutes)
    ensures HourValue(r) % 12 == (if minutes < 30 then hours else hours + 1) % 12
    ensures !(minutes == 30 && (hours == 11 || hours == 23)) ==> r == GermanHour(hours, minutes)
  {
    if minutes == 30 && (hours == 11 || hours == 23) then Num(12)
    else GermanHour(hours, minutes)
  }

  function GermanFormIntended(hours: nat, minutes: nat): (r: GermanForm)
    requires ValidClock(hours, minutes)
    ensures GermanReading(r) == ClockDial(hours, minutes)
    ensures NamesHour(r.h, if minutes < 30 then hours else hours + 1)
  {
    var hour := GermanHourIntended(hours, minutes);
    DialSameHour(HourValue(hour) - (if minutes >= 30 then 1 else 0), hours, minutes);
    GermanPhraseWith(hour, minutes)
  }

  // ------------------------------------------------------------ the handler

  /**
   * The answer of `timeIntent` for the active language and the clock
   * reading: English, French, German, or "{hours} {minutes}" otherwise.
   */
  function TimePhrase(language: string, hours: nat, minutes: nat): (r: Result<string, Error>)
    requires ValidClock(hours, minutes)
    ensures r.Err? <==> language == "en" && minutes == 45 && hours % 12 == 0
    ensures language !in {"en", "fr", "de"} ==> r == Ok(NatToString(hours) + " " + NatToString(minutes))
  {
    if language == "en" then
      match EnglishFormOf(hours, minutes)
      case Ok(f) => Ok(EnglishRender(f))
      case Err(e) => Err(e)
    else if language == "fr" then Ok(FrenchRender(FrenchFormOf(hours, minutes)))
    else if language == "de" then Ok(GermanRender(GermanFormOf(hours, minutes)))
    else Ok(NatToString(hours) + " " + NatToString(minutes))
  }

  /** The same with the two corrections; it never fails. */
  function TimePhraseIntended(language: string, hours: nat, minutes: nat): (r: string)
    requires ValidClock(hours, minutes)
    ensures language != "en" && language != "de" ==> Ok(r) == TimePhrase(language, hours, minutes)
  {
    if language == "en" then EnglishRender(EnglishFormIntended(hours, minutes))
    else if language == "de" then GermanRender(GermanFormIntended(hours, minutes))
    else TimePhrase(language, hours, minutes).value
  }

  /** `timeIntent`: end the dialog with the 'time' talk formatted with the phrase. */
  function TimeIntent(language: string, hours: nat, minutes: nat): (r: Result<Dialog.Action, Error>)
    requires ValidClock(hours, minutes)
    ensures r.Ok? <==> TimePhrase(language, hours, minutes).Ok?
    ensures r.Ok? ==> r.value == Dialog.End("time", [TimePhrase(language, hours, minutes).value])
  {
    match TimePhrase(language, hours, minutes)
    case Ok(p) => Ok(Dialog.End("time", [p]))
    case Err(e) => Err(e)
  }
}
