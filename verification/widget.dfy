/**
 The weather widget itself: its local UI state, the transitions the user's
 events cause, the effects a city submission emits, and the choice of what
 to render from the state and the caller's inputs.
 */
module Widget {
  import opened Ascii
  import opened Themes
  import opened CityName
  import opened WeatherData

  /** The inputs the caller passes; `hasCallback` says whether `onChangeCity` was given. */
  datatype Props = Props(
    weather: Option<Weather>,
    city: Option<String>,
    loading: bool,
    hasCallback: bool,
    defaultOpen: bool)

  /** The component's own state. */
  datatype UIState = UIState(open: bool, searchMode: bool, query: String)

  /** The persistent key a city is stored under when there is no callback. */
  const HomeCityKey: String := "home.city"

  /** What a submission does outside the component. */
  datatype Effect =
    | NoEffect
    | CallCallback(name: String)
    | StoreItem(key: String, value: String)

  /** The state after an event together with the effect it emitted. */
  datatype Step = Step(state: UIState, effect: Effect)

  /**
   The state on mount: closed unless `defaultOpen`, in search mode exactly
   when no city was given, with the given city as the query.
   */
  function Init(props: Props): (s: UIState)
    ensures s.open == props.defaultOpen
    ensures s.searchMode <==> !Truthy(props.city)
    ensures !s.searchMode ==> s.query == props.city.value
    ensures s.searchMode <==> s.query == []
  {
    UIState(props.defaultOpen, !Truthy(props.city), if Truthy(props.city) then props.city.value else [])
  }

  /** `handleToggle`: the open/close button flips `open` and nothing else. */
  function Toggle(s: UIState): (r: UIState)
    ensures r.open != s.open
    ensures r.searchMode == s.searchMode && r.query == s.query
  {
    s.(open := !s.open)
  }

  /** Opening and closing again restores the state exactly. */
  lemma ToggleInvolutive(s: UIState)
    ensures Toggle(Toggle(s)) == s
  {
  }

  /**
   The settings button: flips `searchMode`; entering search mode clears the
   query, leaving it keeps the query.
   */
  function ToggleSettings(s: UIState): (r: UIState)
    ensures r.searchMode != s.searchMode
    ensures r.open == s.open
    ensures r.searchMode ==> r.query == []
    ensures !r.searchMode ==> r.query == s.query
  {
    var next := !s.searchMode;
    if next then s.(searchMode := next, query := []) else s.(searchMode := next)
  }

  /** Pressing the settings button twice returns to the same mode with an empty query. */
  lemma ToggleSettingsTwice(s: UIState)
    ensures ToggleSettings(ToggleSettings(s)) == s.(query := [])
  {
  }

  /** Typing in the search box replaces the query and nothing else. */
  function EditQuery(s: UIState, text: String): (r: UIState)
    ensures r.query == text
    ensures r.open == s.open && r.searchMode == s.searchMode
  {
    s.(query := text)
  }

  /** The name an effect carries, if any. */
  function EffectName(e: Effect): Option<String> {
    match e
    case NoEffect => None
    case CallCallback(name) => Some(name)
    case StoreItem(_, value) => Some(value)
  }

  /**
   `handleSubmitCity`. A blank query is a no-op: the state is unchanged and
   nothing is emitted. Otherwise exactly one effect carries the normalised
   name (the callback when one was given, else the `home.city` write), search
   mode ends, the query is cleared and `open` is kept.
   */
  function Submit(s: UIState, hasCallback: bool): (r: Step)
    ensures r.effect.NoEffect? <==> IsBlank(s.query)
    ensures IsBlank(s.query) ==> r.state == s
    ensures r.effect.CallCallback? <==> !IsBlank(s.query) && hasCallback
    ensures r.effect.StoreItem? <==> !IsBlank(s.query) && !hasCallback
    ensures r.effect.StoreItem? ==> r.effect.key == HomeCityKey
    ensures !r.effect.NoEffect? ==> EffectName(r.effect) == Some(Normalize(s.query))
    ensures !IsBlank(s.query) ==> !r.state.searchMode && r.state.query == [] && r.state.open == s.open
  {
    var name := Normalize(s.query);
    if name == [] then Step(s, NoEffect)
    else
      var effect := if hasCallback then CallCallback(name) else StoreItem(HomeCityKey, name);
      Step(s.(searchMode := false, query := []), effect)
  }

  /** Whatever the query, a submission never emits an empty or non-normalised name. */
  lemma SubmittedNameIsNormalized(s: UIState, hasCallback: bool)
    ensures var e := Submit(s, hasCallback).effect;
      e.NoEffect? || (EffectName(e).value != [] && Normalize(EffectName(e).value) == EffectName(e).value)
  {
    NormalizeIdempotent(s.query);
  }

  /** Whatever was typed last is what a following submission normalises and emits. */
  lemma TypeThenSubmit(s: UIState, text: String, hasCallback: bool)
    requires !IsBlank(text)
    ensures EffectName(Submit(EditQuery(s, text), hasCallback).effect) == Some(Normalize(text))
    ensures Submit(EditQuery(s, text), hasCallback).state.query == []
  {
  }

  /** A user interaction. */
  datatype Event = ToggleOpen | ToggleSearch | Type(text: String) | SubmitCity

  /**
   The handler each event runs: the open/close buttons `handleToggle`, the
   settings button its inline updater, the input's `onChange` the query
   setter and the form `handleSubmitCity`. Only a submission has an effect,
   and only the open/close buttons move `open`.
   */
  function Dispatch(s: UIState, hasCallback: bool, e: Event): (r: Step)
    ensures !e.SubmitCity? ==> r.effect.NoEffect?
    ensures r.state.open == (s.open != e.ToggleOpen?)
    ensures e.ToggleOpen? ==> r.state == Toggle(s)
    ensures e.ToggleSearch? ==> r.state == ToggleSettings(s)
    ensures e.Type? ==> r.state == EditQuery(s, e.text)
    ensures e.SubmitCity? ==> r == Submit(s, hasCallback)
  {
    match e
    case ToggleOpen => Step(Toggle(s), NoEffect)
    case ToggleSearch => Step(ToggleSettings(s), NoEffect)
    case Type(text) => Step(EditQuery(s, text), NoEffect)
    case SubmitCity => Submit(s, hasCallback)
  }

  /** How many submissions a sequence of events contains. */
  function Submissions(es: seq<Event>): nat {
    if es == [] then 0 else (if es[0].SubmitCity? then 1 else 0) + Submissions(es[1..])
  }

  /** Does a sequence of events press the open/close button an odd number of times? */
  function OddToggles(es: seq<Event>): bool {
    if es == [] then false else es[0].ToggleOpen? != OddToggles(es[1..])
  }

  /** The final state and the effects emitted, in order, by a sequence of events. */
  datatype Trace = Trace(state: UIState, effects: seq<Effect>)

  /**
   Runs a sequence of events from `s`. At most one effect per submission is
   emitted, and every emitted effect carries a non-empty normalised name.
   */
  function Run(s: UIState, hasCallback: bool, es: seq<Event>): (r: Trace)
    ensures |r.effects| <= Submissions(es)
    ensures es != [] && es[0].SubmitCity? && !IsBlank(s.query) ==>
      r.effects != [] && r.effects[0] == Submit(s, hasCallback).effect
    ensures forall k :: 0 <= k < |r.effects| ==>
      var name := EffectName(r.effects[k]);
      name.Some? && name.value != [] && IsNormalized(name.value)
    decreases |es|
  {
    if es == [] then Trace(s, [])
    else
      var step := Dispatch(s, hasCallback, es[0]);
      var rest := Run(step.state, hasCallback, es[1..]);
      if step.effect.NoEffect? then rest
      else Trace(rest.state, [step.effect] + rest.effects)
  }

  /** A sequence without a submission emits nothing. */
  lemma {:induction false} RunNoSubmitNoEffect(s: UIState, hasCallback: bool, es: seq<Event>)
    requires Submissions(es) == 0
    ensures Run(s, hasCallback, es).effects == []
    decreases |es|
  {
    if es != [] {
      RunNoSubmitNoEffect(Dispatch(s, hasCallback, es[0]).state, hasCallback, es[1..]);
    }
  }

  /**
   Every non-blank submission emits its effect, in order: a run that submits
   a non-blank query and then continues emits that submission's effect
   followed by the effects of the rest of the run.
   */
  lemma RunSubmitEmits(s: UIState, hasCallback: bool, es: seq<Event>)
    requires !IsBlank(s.query)
    ensures var step := Submit(s, hasCallback);
      Run(s, hasCallback, [SubmitCity] + es).effects == [step.effect] + Run(step.state, hasCallback, es).effects
  {
    assert ([SubmitCity] + es)[1..] == es;
  }

  /** Only the open/close button moves `open`: it ends up flipped once per press. */
  lemma {:induction false} RunOpenParity(s: UIState, hasCallback: bool, es: seq<Event>)
    ensures Run(s, hasCallback, es).state.open == (s.open != OddToggles(es))
    decreases |es|
  {
    if es != [] {
      var step := Dispatch(s, hasCallback, es[0]);
      RunOpenParity(step.state, hasCallback, es[1..]);
      assert Run(s, hasCallback, es).state == Run(step.state, hasCallback, es[1..]).state;
    }
  }

  /** The header: country (or nothing) and the snapshot's city, falling back to the `city` input. */
  datatype Header = Header(country: String, title: Option<String>)

  /** What the card shows under the header. */
  datatype Panel = SearchForm | Loading | Conditions(current: Current) | NoData

  /**
   What is rendered. `stats` is present when the humidity/wind row is shown;
   `forecast` is present when the forecast row is shown.
   */
  datatype View =
    | CollapsedButton
    | Card(theme: Theme, header: Header, panel: Panel, stats: Option<Current>, forecast: Option<seq<ForecastDay>>)

  /** The header line of the open card. */
  function HeaderOf(props: Props): (h: Header)
    ensures props.weather.Some? && Truthy(props.weather.value.country) ==> h.country == props.weather.value.country.value
    ensures !(props.weather.Some? && Truthy(props.weather.value.country)) ==> h.country == []
    ensures props.weather.Some? && Truthy(props.weather.value.city) ==> h.title == props.weather.value.city
    ensures !(props.weather.Some? && Truthy(props.weather.value.city)) ==> h.title == props.city
  {
    var w := props.weather;
    Header(
      if w.Some? && Truthy(w.value.country) then w.value.country.value else [],
      if w.Some? && Truthy(w.value.city) then w.value.city else props.city)
  }

  /** `renderWeatherInfo`: loading first, then the current reading, else "No data". */
  function WeatherInfo(props: Props): (p: Panel)
    ensures props.loading ==> p == Loading
    ensures !props.loading && CurrentOf(props.weather).Some? ==> p == Conditions(CurrentOf(props.weather).value)
    ensures !props.loading && CurrentOf(props.weather).None? ==> p == NoData
  {
    if props.loading then Loading
    else match CurrentOf(props.weather)
      case Some(c) => Conditions(c)
      case None => NoData
  }

  /**
   The main render. Closed shows only the button. Open shows the card: the
   search form in search mode, the weather information otherwise; the stats
   row exactly when not in search mode and a current reading exists (even
   while loading), and the forecast row exactly when not in search mode and
   `forecast3` is non-empty.
   */
  function Render(s: UIState, props: Props): (v: View)
    ensures v.CollapsedButton? <==> !s.open
    ensures v.Card? ==> v.theme == CardTheme(props.weather) && v.header == HeaderOf(props)
    ensures v.Card? ==> (v.panel == SearchForm <==> s.searchMode)
    ensures v.Card? && !s.searchMode ==> v.panel == WeatherInfo(props)
    ensures v.Card? ==> (v.stats.Some? <==> !s.searchMode && CurrentOf(props.weather).Some?)
    ensures v.Card? && v.stats.Some? ==> v.stats == CurrentOf(props.weather)
    ensures v.Card? ==> (v.forecast.Some? <==> !s.searchMode && Forecast3(props.weather) != [])
    ensures v.Card? && v.forecast.Some? ==> v.forecast.value == Forecast3(props.weather)
  {
    if !s.open then CollapsedButton
    else
      var current := CurrentOf(props.weather);
      var f3 := Forecast3(props.weather);
      Card(
        CardTheme(props.weather),
        HeaderOf(props),
        if s.searchMode then SearchForm else WeatherInfo(props),
        if !s.searchMode && current.Some? then current else None,
        if !s.searchMode && f3 != [] then Some(f3) else None)
  }

  /** A rendered view is consistent: a shown forecast has one to three days, the search form hides all data. */
  predicate WellFormed(v: View) {
    v.Card? ==>
      && (v.forecast.Some? ==> 0 < |v.forecast.value| <= 3)
      && (v.panel == SearchForm ==> v.stats.None? && v.forecast.None?)
  }

  /** Every render is well formed. */
  lemma RenderWellFormed(s: UIState, props: Props)
    ensures WellFormed(Render(s, props))
  {
  }

  /** While loading, the information panel does not depend on the snapshot. */
  lemma LoadingIgnoresWeather(s: UIState, props: Props, other: Option<Weather>)
    requires s.open && !s.searchMode && props.loading
    ensures Render(s, props).panel == Loading
    ensures Render(s, props.(weather := other)).panel == Loading
  {
  }

  /** The open/close button switches between the collapsed button and the card. */
  lemma ToggleSwitchesView(s: UIState, props: Props)
    ensures Render(Toggle(s), props).CollapsedButton? <==> s.open
  {
  }

  /** After a successful submission from the open card, the search form is gone. */
  lemma SubmitLeavesSearchForm(s: UIState, props: Props)
    requires s.open && !IsBlank(s.query)
    ensures Render(Submit(s, props.hasCallback).state, props).panel != SearchForm
  {
  }

  /** Mounted open without a city, the widget shows the search form with an empty query. */
  lemma InitWithoutCityShowsSearch(props: Props)
    requires props.defaultOpen && !Truthy(props.city)
    ensures Render(Init(props), props).panel == SearchForm
    ensures Init(props).query == []
  {
  }
}
