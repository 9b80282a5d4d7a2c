/**
 * The telemetry module (PublishedModules/ProjectAlice/Telemetry): the latest
 * stored value of a telemetry type, spoken with its unit.
 *
 * The telemetry store is the `getData` parameter: the data stored for a site
 * and a type, as a map from field name to value, if any.
 */
module Telemetry {
  import opened Wrappers
  import opened Dialog

  const AnswerTelemetryTypeIntent := "AnswerTelemetryType"

  /** The unit spoken after each telemetry type. */
  const Units: map<string, string> := map[
    "airQuality" := "%",
    "co2" := "ppm",
    "gas" := "ppm",
    "gust_angle" := "°",
    "gust_strength" := "km/h",
    "humidity" := "%",
    "light" := "lux",
    "pressure" := "mb",
    "rain" := "mm",
    "temperature" := "°C",
    "wind_angle" := "°",
    "wind_strength" := "km/h"]

  /** `_telemetryUnits.get(type, '')`; a missing type slot has no unit. */
  function Unit(telemetryType: Option<string>): (u: string)
    ensures telemetryType.Some? && telemetryType.value in Units ==> u == Units[telemetryType.value]
    ensures telemetryType.None? || telemetryType.value !in Units ==> u == ""
  {
    if telemetryType.Some? && telemetryType.value in Units then Units[telemetryType.value] else ""
  }

  /** `session.slotValue(name)`: the slot's value, None when the slot is missing. */
  function SlotValue(slots: map<string, string>, name: string): Option<string>
  {
    if name in slots then Some(slots[name]) else None
  }

  /** The site asked about: the Room slot's value when the slots hold a siteId key, else the asking site. */
  function TargetSite(siteId: string, slots: map<string, string>): (r: Option<string>)
    ensures "siteId" !in slots ==> r == Some(siteId)
    ensures "siteId" in slots ==> r == SlotValue(slots, "Room")
  {
    if "siteId" in slots then SlotValue(slots, "Room") else Some(siteId)
  }

  /**
   * `telemetryIntent`: the host calls it makes, in order. Without a
   * TelemetryType slot it asks for one and still goes on; data with a value
   * is answered with the value followed by the unit, anything else with noData.
   */
  function TelemetryIntent(siteId: string, slots: map<string, string>,
                           getData: (Option<string>, Option<string>) -> Option<map<string, string>>): (r: seq<Action>)
    ensures |r| == if "TelemetryType" in slots then 1 else 2
    ensures "TelemetryType" !in slots ==> r[0] == Ask("noType", [AnswerTelemetryTypeIntent], None, Some("TelemetryType"))
    ensures var data := getData(TargetSite(siteId, slots), SlotValue(slots, "TelemetryType"));
      var answer := r[|r| - 1];
      if data.Some? && "value" in data.value then
        answer == End("answerInstant", [data.value["value"] + Unit(SlotValue(slots, "TelemetryType"))])
      else answer == End("noData", [])
  {
    var ask := if "TelemetryType" !in slots then [Ask("noType", [AnswerTelemetryTypeIntent], None, Some("TelemetryType"))] else [];
    var telemetryType := SlotValue(slots, "TelemetryType");
    var data := getData(TargetSite(siteId, slots), telemetryType);
    if data.Some? && "value" in data.value then
      var answer := data.value["value"] + Unit(telemetryType);
      ask + [End("answerInstant", [answer])]
    else ask + [End("noData", [])]
  }

  /** As written, a Room slot alone does not change the site: the test looks for a siteId slot. */
  lemma RoomIgnoredAsWritten()
    ensures TargetSite("office", map["Room" := "kitchen"]) == Some("office")
  {
  }

  /** The site as evidently intended: the Room slot's value when there is one, else the asking site. */
  function TargetSiteIntended(siteId: string, slots: map<string, string>): (r: string)
    ensures SlotValue(slots, "Room").Some? ==> r == slots["Room"]
    ensures SlotValue(slots, "Room").None? ==> r == siteId
    ensures ("siteId" in slots <==> "Room" in slots) ==> TargetSite(siteId, slots) == Some(r)
  {
    if "Room" in slots then slots["Room"] else siteId
  }

  /**
   * `telemetryIntent` as evidently intended: without a TelemetryType slot it
   * only asks for one; otherwise it answers for the site of the Room slot.
   */
  function TelemetryIntentIntended(siteId: string, slots: map<string, string>,
                                   getData: (Option<string>, Option<string>) -> Option<map<string, string>>): (r: Action)
    ensures r.Ask? <==> "TelemetryType" !in slots
    ensures r.Ask? ==> r == Ask("noType", [AnswerTelemetryTypeIntent], None, Some("TelemetryType"))
    ensures "TelemetryType" in slots && ("siteId" in slots <==> "Room" in slots) ==> TelemetryIntent(siteId, slots, getData) == [r]
  {
    if "TelemetryType" !in slots then Ask("noType", [AnswerTelemetryTypeIntent], None, Some("TelemetryType"))
    else
      var telemetryType := SlotValue(slots, "TelemetryType");
      var data := getData(Some(TargetSiteIntended(siteId, slots)), telemetryType);
      if data.Some? && "value" in data.value then End("answerInstant", [data.value["value"] + Unit(telemetryType)])
      else End("noData", [])
  }
}
