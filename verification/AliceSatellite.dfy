/**
 * The satellite module (PublishedModules/ProjectAlice/AliceSatellite): a
 * table of the latest sensor readings per site, filled by the satellites'
 * feedback messages and read by the temperature, humidity, CO2 and pressure
 * intents.
 */
module AliceSatellite {
  import opened Wrappers
  import opened Text
  import opened Dialog

  const TemperatureIntent := "GetTemperature"
  const HumidityIntent := "GetHumidity"
  const Co2Intent := "GetCo2Level"
  const PressureIntent := "GetPressure"
  const FeedbackSensors := "projectAlice/devices/alice/sensorsFeedback"
  const DeviceDisconnection := "projectAlice/devices/alice/disconnection"

  const Undefined := "undefined"

  /** The readings of each site, as the last feedback message of the site gave them. */
  type Readings = map<string, map<string, string>>

  /** `getSensorValue` on a table: the stored value, or "undefined" when the site or the key is missing. */
  function SensorValue(readings: Readings, siteId: string, key: string): (r: string)
    ensures siteId !in readings || key !in readings[siteId] ==> r == Undefined
    ensures siteId in readings && key in readings[siteId] ==> r == readings[siteId][key]
  {
    if siteId !in readings then Undefined
    else if key in readings[siteId] then readings[siteId][key]
    else Undefined
  }

  /** After a site reports new data, its values are the new data's and every other site reads as before. */
  lemma FeedbackReplacesSite(readings: Readings, site: string, data: map<string, string>, s: string, key: string)
    ensures SensorValue(readings[site := data], s, key)
      == if s == site then (if key in data then data[key] else Undefined) else SensorValue(readings, s, key)
  {
  }

  /** The place asked about: the Place slot when there is one, else the asking site. */
  function Place(siteId: string, slots: map<string, string>): (r: string)
    ensures "Place" in slots ==> r == slots["Place"]
    ensures "Place" !in slots ==> r == siteId
  {
    if "Place" in slots then slots["Place"] else siteId
  }

  /** A ".0" at the start of a string. */
  predicate DotZeroAt(s: string, i: nat)
  {
    i + 1 < |s| && s[i] == '.' && s[i + 1] == '0'
  }

  /** `s.replace('.0', '')`: every ".0", scanning left to right without overlaps, is removed. */
  function StripDotZero(s: string): (r: string)
    ensures |r| <= |s|
    decreases |s|
  {
    if |s| < 2 then s
    else if DotZeroAt(s, 0) then StripDotZero(s[2..])
    else [s[0]] + StripDotZero(s[1..])
  }

  /** A value is spoken unchanged exactly when it holds no ".0". */
  lemma {:induction false} StripDotZeroUnchanged(s: string)
    ensures StripDotZero(s) == s <==> forall i :: 0 <= i < |s| ==> !DotZeroAt(s, i)
    decreases |s|
  {
    if |s| >= 2 {
      if DotZeroAt(s, 0) {
        assert |StripDotZero(s[2..])| < |s|;
      } else {
        var t := s[1..];
        StripDotZeroUnchanged(t);
        assert s == [s[0]] + t;
        assert StripDotZero(s) == s <==> StripDotZero(t) == t by {
          if StripDotZero(s) == s {
            assert StripDotZero(s)[1..] == StripDotZero(t);
          }
        }
        if forall i :: 0 <= i < |s| ==> !DotZeroAt(s, i) {
          forall j | 0 <= j < |t|
            ensures !DotZeroAt(t, j)
          {
            assert !DotZeroAt(s, j + 1);
          }
        }
        if forall j :: 0 <= j < |t| ==> !DotZeroAt(t, j) {
          forall i | 0 <= i < |s|
            ensures !DotZeroAt(s, i)
          {
            if i > 0 {
              assert !DotZeroAt(t, i - 1);
            }
          }
        }
        assert !DotZeroAt(s, 0);
      }
    }
  }

  /** A whole-degree reading such as "21.0" is spoken as its digits only. */
  lemma {:induction false} StripWholeNumber(digits: string)
    requires forall i :: 0 <= i < |digits| ==> IsDigit(digits[i])
    ensures StripDotZero(digits + ".0") == digits
  {
    if digits == [] {
      assert "" + ".0" == ".0";
    } else {
      assert (digits + ".0")[1..] == digits[1..] + ".0";
      StripWholeNumber(digits[1..]);
      assert [digits[0]] + digits[1..] == digits;
    }
  }

  /** The number of a reading, spoken without its decimal when it is whole. */
  lemma SpokenWholeTemperature(n: nat)
    ensures StripDotZero(NatToString(n) + ".0") == NatToString(n)
  {
    StripWholeNumber(NatToString(n));
  }

  /** As written, a reading whose decimals start with 0 loses its point: "20.05" is spoken as "205". */
  lemma StripDecimalAsWritten()
    ensures StripDotZero("20.05") == "205"
  {
    assert DotZeroAt("20.05", 2) && !DotZeroAt("20.05", 0) && !DotZeroAt("20.05", 1);
    assert "20.05"[1..] == "0.05" && "0.05"[1..] == ".05" && ".05"[2..] == "5";
  }

  /** The spoken reading as evidently intended: a whole number's trailing ".0" dropped, any other reading unchanged. */
  function DropWholeDecimal(s: string): (r: string)
    ensures |s| >= 2 && s[|s| - 2..] == ".0" ==> r + ".0" == s
    ensures !(|s| >= 2 && s[|s| - 2..] == ".0") ==> r == s
  {
    if |s| >= 2 && s[|s| - 2..] == ".0" then s[..|s| - 2] else s
  }

  /** The correction speaks whole numbers and readings without ".0" as the original does. */
  lemma DropWholeDecimalAgrees(s: string, digits: string)
    requires forall i :: 0 <= i < |digits| ==> IsDigit(digits[i])
    ensures DropWholeDecimal(digits + ".0") == digits == StripDotZero(digits + ".0")
    ensures (forall i :: 0 <= i < |s| ==> !DotZeroAt(s, i)) ==> DropWholeDecimal(s) == s == StripDotZero(s)
  {
    StripWholeNumber(digits);
    assert (digits + ".0")[..|digits|] == digits;
    StripDotZeroUnchanged(s);
    if (forall i :: 0 <= i < |s| ==> !DotZeroAt(s, i)) && |s| >= 2 && s[|s| - 2..] == ".0" {
      assert DotZeroAt(s, |s| - 2);
    }
  }

  /** The sensor a query intent reads and the talk its answer uses. */
  function Query(intent: string): Option<(string, string)>
  {
    if intent == TemperatureIntent then Some(("temperature", "temperature"))
    else if intent == HumidityIntent then Some(("humidity", "humidity"))
    else if intent == Co2Intent then Some(("gas", "co2"))
    else if intent == PressureIntent then Some(("pressure", "pressure"))
    else None
  }

  /**
   * The answer to a query: the place-specific talk, naming the place, exactly
   * when the place asked about is not the asking site.
   */
  function Answer(talk: string, siteId: string, place: string, spoken: string): (a: Action)
    ensures a.End?
    ensures place != siteId <==> a.talk == talk + "PlaceSpecific"
    ensures a.args == if place != siteId then [place, spoken] else [spoken]
  {
    if place != siteId then End(talk + "PlaceSpecific", [place, spoken]) else End(talk, [spoken])
  }

  /** A lookup `randomTalk(talk, module)`: the key `talk` among the talks of module `owner`. */
  datatype TalkLookup = TalkLookup(talk: string, owner: string)

  const ModuleName := "AliceSatellite"

  /**
   * The CO2 answer's lookup as written: the module's name is passed first,
   * where `randomTalk` takes the talk key, and the talk key second, where it
   * takes the module.
   */
  function Co2LookupAsWritten(siteId: string, place: string): (r: TalkLookup)
    ensures r.talk == ModuleName
    ensures r.owner == (if place != siteId then "co2PlaceSpecific" else "co2")
  {
    TalkLookup(ModuleName, if place != siteId then "co2PlaceSpecific" else "co2")
  }

  /**
   * The CO2 answer's lookup as intended: the talk of the answer the CO2 query
   * gives, among this module's talks.
   */
  function Co2LookupIntended(siteId: string, place: string): (r: TalkLookup)
    ensures r.owner == ModuleName
    ensures Query(Co2Intent).Some?
    ensures forall spoken :: r.talk == Answer(Query(Co2Intent).value.1, siteId, place, spoken).talk
  {
    TalkLookup(Answer(Query(Co2Intent).value.1, siteId, place, "").talk, ModuleName)
  }

  /**
   * As written, the CO2 answer never finds its talk: the key looked up is the
   * module's name, which is neither CO2 talk, and the module searched is a
   * talk key, not this module.
   */
  lemma Co2LookupMisses(siteId: string, place: string)
    ensures Co2LookupAsWritten(siteId, place).talk !in {"co2", "co2PlaceSpecific"}
    ensures Co2LookupAsWritten(siteId, place).owner != ModuleName
    ensures Co2LookupAsWritten(siteId, place) != Co2LookupIntended(siteId, place)
  {
  }

  /** A message delivered to the module. */
  datatype Message = Message(
    intent: string,
    siteId: string,
    slots: map<string, string>,
    data: Option<map<string, string>>,   // the payload's "data", for sensor feedback
    uid: Option<string>)                 // the payload's "uid", for a disconnection

  class AliceSatellite {
    var sensorReadings: Readings

    constructor()
      ensures sensorReadings == map[]
    {
      sensorReadings := map[];
    }

    /** `getSensorValue`. */
    function GetSensorValue(siteId: string, key: string): (r: string)
      reads this
      ensures r == SensorValue(sensorReadings, siteId, key)
    {
      SensorValue(sensorReadings, siteId, key)
    }

    /** `temperatureAt`: the temperature reading of the site. */
    function TemperatureAt(siteId: string): (r: string)
      reads this
      ensures r == GetSensorValue(siteId, "temperature")
    {
      GetSensorValue(siteId, "temperature")
    }

    /**
     * `onMessage`. Feedback with data replaces the sender's readings and is
     * handled; a query is handled and answered when its reading is defined; a
     * disconnection hands the uid on but is reported unhandled. `rounded` is
     * the rounding of a humidity or pressure reading to a whole number.
     */
    method OnMessage(msg: Message, rounded: string -> string)
      returns (handled: bool, reply: Option<Action>, disconnecting: Option<string>)
      modifies this
      ensures msg.intent == FeedbackSensors ==>
        handled && reply.None? && sensorReadings == (if msg.data.Some? then old(sensorReadings)[msg.siteId := msg.data.value] else old(sensorReadings))
      ensures msg.intent != FeedbackSensors ==> sensorReadings == old(sensorReadings)
      ensures disconnecting.Some? <==> msg.intent == DeviceDisconnection && msg.uid.Some?
      ensures disconnecting.Some? ==> disconnecting == msg.uid
      ensures Query(msg.intent).None? && msg.intent != FeedbackSensors ==> !handled && reply.None?
      ensures Query(msg.intent).Some? ==>
        var (key, talk) := Query(msg.intent).value;
        var value := SensorValue(old(sensorReadings), Place(msg.siteId, msg.slots), key);
        (handled <==> value != Undefined)
        && (handled ==> reply == Some(Answer(talk, msg.siteId, Place(msg.siteId, msg.slots),
              if msg.intent == TemperatureIntent then StripDotZero(value)
              else if msg.intent == Co2Intent then value
              else rounded(value))))
        && (!handled ==> reply.None?)
    {
      disconnecting := None;
      reply := None;
      var place := Place(msg.siteId, msg.slots);
      if msg.intent == FeedbackSensors {
        if msg.data.Some? {
          sensorReadings := sensorReadings[msg.siteId := msg.data.value];
        }
        return true, None, None;
      }
      if msg.intent == DeviceDisconnection {
        return false, None, msg.uid;
      }
      var query := Query(msg.intent);
      if query.None? {
        return false, None, None;
      }
      var (key, talk) := query.value;
      var value := GetSensorValue(place, key);
      if value == Undefined {
        return false, None, None;
      }
      var spoken := if msg.intent == TemperatureIntent then StripDotZero(value)
        else if msg.intent == Co2Intent then value
        else rounded(value);
      return true, Some(Answer(talk, msg.siteId, place, spoken)), None;
    }
  }
}
