/**
 The weather snapshot the widget is handed by its caller, and the values the
 widget derives from it without looking at its own state: the first three
 forecast days, the day-name abbreviation and the background theme.
 */
module WeatherData {
  import opened Ascii
  import opened Themes

  /** A value that may be absent (`undefined` / `null`). */
  datatype Option<+T> = None | Some(value: T)

  /** Conditions right now. Temperatures and rates are shown, never computed with. */
  datatype Current = Current(temperature: real, description: Option<String>, humidity: real, windSpeed: real)

  /** One forecast day; `pop` is the probability of precipitation in percent. */
  datatype ForecastDay = ForecastDay(date: String, dayName: String, tempMin: real, tempMax: real, pop: real)

  /** The snapshot; every part of it may be missing. */
  datatype Weather = Weather(
    current: Option<Current>,
    forecast: Option<seq<ForecastDay>>,
    city: Option<String>,
    country: Option<String>)

  /** JavaScript truthiness of an optional string: present and not empty. */
  predicate Truthy(s: Option<String>) {
    s.Some? && s.value != []
  }

  /** `weather?.current`: no reading without a snapshot, else the snapshot's own. */
  function CurrentOf(weather: Option<Weather>): (r: Option<Current>)
    ensures weather.None? ==> r.None?
    ensures weather.Some? ==> r == weather.value.current
  {
    if weather.Some? then weather.value.current else None
  }

  /**
   `forecast3`: the first three forecast days in their original order, or
   fewer when fewer are supplied, and none when the forecast is absent.
   */
  function Forecast3(weather: Option<Weather>): (r: seq<ForecastDay>)
    ensures |r| <= 3
    ensures weather.None? || weather.value.forecast.None? ==> r == []
    ensures weather.Some? && weather.value.forecast.Some? ==>
      var f := weather.value.forecast.value;
      r <= f && (|r| == 3 || r == f)
  {
    if weather.Some? && weather.value.forecast.Some? then
      var f := weather.value.forecast.value;
      if |f| <= 3 then f else f[..3]
    else []
  }

  /** The length `Forecast3` keeps is `min(3, n)`. */
  lemma Forecast3Length(weather: Weather, f: seq<ForecastDay>)
    requires weather.forecast == Some(f)
    ensures |Forecast3(Some(weather))| == if |f| < 3 then |f| else 3
  {
  }

  /**
   The day label of a forecast column: the first three characters of the day
   name, upper-cased.
   */
  function DayAbbrev(dayName: String): (r: String)
    ensures |r| == if |dayName| < 3 then |dayName| else 3
    ensures forall i :: 0 <= i < |r| ==> !IsLowerLetter(r[i])
    ensures Lower(r) == Lower(dayName[..|r|])
  {
    var p := if |dayName| < 3 then dayName else dayName[..3];
    LowerOfUpper(p);
    Upper(p)
  }

  /**
   The description the theme is computed from: `current?.description || ''`,
   so an absent current reading, an absent description and an empty one all
   give the empty text.
   */
  function ThemeDescription(weather: Option<Weather>): (d: String)
    ensures d == [] <==> !(CurrentOf(weather).Some? && Truthy(CurrentOf(weather).value.description))
    ensures d != [] ==> d == CurrentOf(weather).value.description.value
  {
    var c := CurrentOf(weather);
    if c.Some? && Truthy(c.value.description) then c.value.description.value else []
  }

  /** The background theme of the card. */
  function CardTheme(weather: Option<Weather>): (t: Theme)
    ensures !(CurrentOf(weather).Some? && CurrentOf(weather).value.description.Some?) ==> t == Default
    ensures CurrentOf(weather).Some? && CurrentOf(weather).value.description.Some? ==>
      t == ThemeFor(CurrentOf(weather).value.description.value)
  {
    EmptyIsDefault();
    ThemeFor(ThemeDescription(weather))
  }
}
