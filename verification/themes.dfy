/**
 Background theme selection (`themeFor`): a weather description is
 lower-cased and searched for keywords in a fixed priority order; the first
 category whose keyword occurs wins.
 */
module Themes {
  import opened Ascii

  /** The eight categories of the theme table. */
  datatype Theme = Clear | Clouds | Rain | Snow | Thunderstorm | Drizzle | Mist | Default

  /** Position of a category in the matching order; `Default` comes last. */
  function Priority(t: Theme): nat {
    match t
    case Clear => 0
    case Clouds => 1
    case Rain => 2
    case Snow => 3
    case Thunderstorm => 4
    case Drizzle => 5
    case Mist => 6
    case Default => 7
  }

  /**
   The keyword table: does some keyword of category `t` occur in the (already
   lower-cased) text `d`? `Default` has no keyword.
   */
  predicate Matches(d: String, t: Theme) {
    match t
    case Clear => Includes(d, "clear")
    case Clouds => Includes(d, "cloud")
    case Rain => Includes(d, "rain")
    case Snow => Includes(d, "snow")
    case Thunderstorm => Includes(d, "thunder")
    case Drizzle => Includes(d, "drizzle")
    case Mist => Includes(d, "mist") || Includes(d, "fog") || Includes(d, "haze")
    case Default => false
  }

  /** No category's keyword occurs in `d`. */
  ghost predicate NoneMatch(d: String) {
    forall t :: !Matches(d, t)
  }

  /**
   The keyword tests of `themeFor`, applied to an already lower-cased text:
   a category other than `Default` is only returned when its keyword occurs,
   and `Default` only when no keyword occurs.
   */
  function Classify(d: String): (r: Theme)
    ensures r != Default ==> Matches(d, r)
    ensures r == Default ==> NoneMatch(d)
  {
    if Includes(d, "clear") then Clear
    else if Includes(d, "cloud") then Clouds
    else if Includes(d, "rain") then Rain
    else if Includes(d, "snow") then Snow
    else if Includes(d, "thunder") then Thunderstorm
    else if Includes(d, "drizzle") then Drizzle
    else if Includes(d, "mist") || Includes(d, "fog") || Includes(d, "haze") then Mist
    else
      NoKeywordNoMatch(d);
      Default
  }

  /** When none of the keywords occurs, no category of the table matches. */
  lemma NoKeywordNoMatch(d: String)
    requires !Includes(d, "clear") && !Includes(d, "cloud") && !Includes(d, "rain")
    requires !Includes(d, "snow") && !Includes(d, "thunder") && !Includes(d, "drizzle")
    requires !Includes(d, "mist") && !Includes(d, "fog") && !Includes(d, "haze")
    ensures NoneMatch(d)
  {
    forall t ensures !Matches(d, t) {
      match t
      case Clear =>
      case Clouds =>
      case Rain =>
      case Snow =>
      case Thunderstorm =>
      case Drizzle =>
      case Mist =>
      case Default =>
    }
  }

  /** The chain of tests picks the matching category of highest priority. */
  lemma ClassifyIsHighestMatch(d: String)
    ensures Classify(d) == Default <==> NoneMatch(d)
    ensures Classify(d) != Default ==> Matches(d, Classify(d))
    ensures forall t :: Priority(t) < Priority(Classify(d)) ==> !Matches(d, t)
  {
    var r := Classify(d);
    forall t | Priority(t) < Priority(r) ensures !Matches(d, t) {
      match t
      case Clear =>
      case Clouds =>
      case Rain =>
      case Snow =>
      case Thunderstorm =>
      case Drizzle =>
      case Mist =>
      case Default =>
    }
  }

  /**
   `themeFor`: the category chosen for a description. The result is the
   matching category of highest priority in the lower-cased description, and
   `Default` exactly when no category matches.
   */
  function ThemeFor(desc: String): (r: Theme)
    ensures r == Default <==> NoneMatch(Lower(desc))
    ensures r != Default ==> Matches(Lower(desc), r)
    ensures forall t :: Priority(t) < Priority(r) ==> !Matches(Lower(desc), t)
  {
    var d := Lower(desc);
    ClassifyIsHighestMatch(d);
    Classify(d)
  }

  /** The categories in matching order. */
  const Order: seq<Theme> := [Clear, Clouds, Rain, Snow, Thunderstorm, Drizzle, Mist]

  /**
   A table-driven reading of the same rule: walk the categories in order and
   return the first that matches.
   */
  function FirstMatch(d: String, order: seq<Theme>): (r: Theme)
    ensures r == Default || r in order
  {
    if order == [] then Default
    else if Matches(d, order[0]) then order[0]
    else FirstMatch(d, order[1..])
  }

  /** The hand-written chain of tests agrees with the table-driven rule. */
  lemma ThemeForIsFirstMatch(desc: String)
    ensures ThemeFor(desc) == FirstMatch(Lower(desc), Order)
  {
    var d := Lower(desc);
    var o := Order;
    assert o[1..][1..] == o[2..] && o[2..][1..] == o[3..] && o[3..][1..] == o[4..];
    assert o[4..][1..] == o[5..] && o[5..][1..] == o[6..] && o[6..][1..] == o[7..];
    assert FirstMatch(d, o[7..]) == Default;
    assert FirstMatch(d, o[6..]) == if Matches(d, Mist) then Mist else Default;
    assert FirstMatch(d, o[5..]) == if Matches(d, Drizzle) then Drizzle else FirstMatch(d, o[6..]);
    assert FirstMatch(d, o[4..]) == if Matches(d, Thunderstorm) then Thunderstorm else FirstMatch(d, o[5..]);
    assert FirstMatch(d, o[3..]) == if Matches(d, Snow) then Snow else FirstMatch(d, o[4..]);
    assert FirstMatch(d, o[2..]) == if Matches(d, Rain) then Rain else FirstMatch(d, o[3..]);
    assert FirstMatch(d, o[1..]) == if Matches(d, Clouds) then Clouds else FirstMatch(d, o[2..]);
    assert FirstMatch(d, o) == if Matches(d, Clear) then Clear else FirstMatch(d, o[1..]);
  }

  /** "clear" beats every other keyword. */
  lemma ClearWins(desc: String)
    requires Includes(Lower(desc), "clear")
    ensures ThemeFor(desc) == Clear
  {
  }

  /** Matching is case-insensitive: lower-casing the description first changes nothing. */
  lemma {:induction false} ThemeForLowerInvariant(desc: String)
    ensures ThemeFor(Lower(desc)) == ThemeFor(desc)
  {
    LowerIdempotent(desc);
  }

  /** Matching is case-insensitive: upper-casing the description changes nothing. */
  lemma {:induction false} ThemeForUpperInvariant(desc: String)
    ensures ThemeFor(Upper(desc)) == ThemeFor(desc)
  {
    LowerOfUpper(desc);
  }

  /** No text matches a keyword it is shorter than, so the empty description gets `Default`. */
  lemma EmptyIsDefault()
    ensures ThemeFor("") == Default
  {
  }

  /**
   A description containing both "thunder" and "rain" is themed as rain.
   The literal reaches the proof through a parameter fixed by `requires`, so
   the verifier does not unroll the recursive string functions on a constant.
   */
  lemma ThunderstormWithRain(desc: String)
    requires desc == "Thunderstorm with rain"
    ensures ThemeFor(desc) == Rain
  {
    LowerThunderstormWithRain(desc);
    ThunderstormWithRainKeywords(Lower(desc));
  }

  /** The lower-cased form of the example description. */
  lemma LowerThunderstormWithRain(desc: String)
    requires desc == "Thunderstorm with rain"
    ensures Lower(desc) == "thunderstorm with rain"
  {
  }

  /** Which keywords the lower-cased example contains. */
  lemma ThunderstormWithRainKeywords(d: String)
    requires d == "thunderstorm with rain"
    ensures Classify(d) == Rain
  {
    AbsentCharNotIncluded(d, "clear", 0);
    AbsentCharNotIncluded(d, "cloud", 0);
    assert OccursAt(d, "rain", 18);
  }

  /**
   "Light rain showers" selects the rain theme.
   The literal reaches the proof through a parameter fixed by `requires`, so
   the verifier does not unroll the recursive string functions on a constant.
   */
  lemma LightRainShowers(desc: String)
    requires desc == "Light rain showers"
    ensures ThemeFor(desc) == Rain
  {
    LowerLightRainShowers(desc);
    LightRainShowersKeywords(Lower(desc));
  }

  /** The lower-cased form of the example description. */
  lemma LowerLightRainShowers(desc: String)
    requires desc == "Light rain showers"
    ensures Lower(desc) == "light rain showers"
  {
  }

  /** Which keywords the lower-cased example contains. */
  lemma LightRainShowersKeywords(d: String)
    requires d == "light rain showers"
    ensures Classify(d) == Rain
  {
    AbsentCharNotIncluded(d, "clear", 0);
    AbsentCharNotIncluded(d, "cloud", 0);
    assert OccursAt(d, "rain", 6);
  }

  /**
   "Partly cloudy" selects the clouds theme.
   The literal reaches the proof through a parameter fixed by `requires`, so
   the verifier does not unroll the recursive string functions on a constant.
   */
  lemma PartlyCloudy(desc: String)
    requires desc == "Partly cloudy"
    ensures ThemeFor(desc) == Clouds
  {
    LowerPartlyCloudy(desc);
    PartlyCloudyKeywords(Lower(desc));
  }

  /** The lower-cased form of the example description. */
  lemma LowerPartlyCloudy(desc: String)
    requires desc == "Partly cloudy"
    ensures Lower(desc) == "partly cloudy"
  {
  }

  /** Which keywords the lower-cased example contains. */
  lemma PartlyCloudyKeywords(d: String)
    requires d == "partly cloudy"
    ensures Classify(d) == Clouds
  {
    AbsentCharNotIncluded(d, "clear", 2);
    assert OccursAt(d, "cloud", 7);
  }
}
