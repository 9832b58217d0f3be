# WeatherWidget, modelled in Dafny

A model of the logic inside the `WeatherWidget` React component
(`src/front/components/WeatherWidget.jsx`). The component shows a collapsible weather card.
It has a toggle button, a city-search form, the current conditions and a three-day forecast.
The card's background theme comes from the weather description. The model keeps the parts
that decide behaviour and drops the markup:

- `Ascii` (`ascii.dfy`): the JavaScript string operations the component uses.
  `toLowerCase`/`toUpperCase` cover ASCII letters only. `trim` covers the ECMAScript
  white-space and line-terminator characters. `includes` is modelled too.
- `Themes` (`themes.dfy`): `themeFor`, the keyword classifier with its fixed priority order.
  It is related to a table-driven "first matching category" reading of the same rule.
- `CityName` (`city_name.dfy`): the normalisation of a submitted city: trim, upper-case the
  first character, lower-case the rest.
- `WeatherData` (`weather_data.dfy`): the weather snapshot the caller passes in, `forecast3`,
  the day-name abbreviation and the theme input `current?.description || ''`.
- `Widget` (`widget.dfy`): the UI state (`open`, `searchMode`, `query`), its initial value and
  its transitions. Effects are returned as values (`CallCallback`, `StoreItem("home.city", …)`,
  `NoEffect`). The module also runs event sequences and picks what is rendered.

The stats row (humidity, wind) is rendered whenever the card is not in search mode and a
current reading exists, including while `loading` is true (line 203). The forecast row
(line 204) does not depend on `loading` either. Only the temperature/description line is
replaced by the loading indicator (`Widget.Render`, `Widget.WeatherInfo`).

## Model

| member | source | states |
|---|---|---|
| Ascii.Lower | src/front/components/WeatherWidget.jsx:158 | lower-casing keeps the length and maps each character by ASCII `toLowerCase` |
| Ascii.UpperChar | src/front/components/WeatherWidget.jsx:23 | a lower-case ASCII letter becomes its upper-case partner (32 code points lower); every other character is unchanged, and the result is never a lower-case letter |
| Ascii.Upper | src/front/components/WeatherWidget.jsx:142 | upper-casing keeps the length and maps each character by ASCII `toUpperCase` |
| Ascii.Trim | src/front/components/WeatherWidget.jsx:23 | the result is the one substring of the query with only white space around it and none at its ends; it is empty exactly when the query is blank |
| Ascii.TrimOfUnique | src/front/components/WeatherWidget.jsx:23 | there is only one trimmed form of a string, so the contract of `Trim` determines its result |
| Ascii.Includes | src/front/components/WeatherWidget.jsx:159-165 | `includes` is true exactly when the keyword occurs at some offset of the text |
| Themes.ThemeFor | src/front/components/WeatherWidget.jsx:157-167 | the theme is the highest-priority category with a keyword in the lower-cased description; it is Default exactly when no keyword occurs |
| Themes.Classify | src/front/components/WeatherWidget.jsx:159-166 | the chain of `includes` tests returns a category only when one of its keywords occurs, and Default only when no keyword of any category occurs |
| Themes.ClassifyIsHighestMatch | src/front/components/WeatherWidget.jsx:159-166 | the chain of `includes` tests returns a matching category, no category of higher priority matches, and Default means nothing matched |
| Themes.ThemeForIsFirstMatch | src/front/components/WeatherWidget.jsx:159-166 | `themeFor` equals walking the category list clear, cloud, rain, snow, thunder, drizzle, mist/fog/haze and taking the first match |
| Themes.ClearWins | src/front/components/WeatherWidget.jsx:159 | a description containing "clear" is Clear whatever else it contains |
| Themes.ThemeForLowerInvariant | src/front/components/WeatherWidget.jsx:158 | lower-casing the description first does not change the theme |
| Themes.ThemeForUpperInvariant | src/front/components/WeatherWidget.jsx:158 | upper-casing the description does not change the theme |
| Themes.EmptyIsDefault | src/front/components/WeatherWidget.jsx:157-166 | the empty description gets the Default theme |
| Themes.ThunderstormWithRain | src/front/components/WeatherWidget.jsx:161-163 | "Thunderstorm with rain" gets Rain, because rain is checked before thunder |
| Themes.LightRainShowers | src/front/components/WeatherWidget.jsx:161 | "Light rain showers" gets Rain |
| Themes.PartlyCloudy | src/front/components/WeatherWidget.jsx:160 | "Partly cloudy" gets Clouds |
| CityName.Capitalize | src/front/components/WeatherWidget.jsx:23 | same length and same letters ignoring case; the first character is not lower-case and the rest has no upper-case letter |
| CityName.Normalize | src/front/components/WeatherWidget.jsx:23 | the name is normalised (trimmed ends, capitalised first character, lower-case rest), as long as the trimmed query, equal to it ignoring case, and empty exactly for a blank query |
| CityName.NormalizedIsFixpoint | src/front/components/WeatherWidget.jsx:23 | a name already in normalised shape is left unchanged |
| CityName.NormalizeIdempotent | src/front/components/WeatherWidget.jsx:23 | normalising twice gives the same name as normalising once |
| CityName.NormalizeIgnoresCase | src/front/components/WeatherWidget.jsx:23 | two queries equal after lower-casing normalise to the same name |
| CityName.NormalizeIgnoresSurroundingBlanks | src/front/components/WeatherWidget.jsx:23 | normalising the trimmed query gives the same name as normalising the query |
| CityName.NewYork | src/front/components/WeatherWidget.jsx:23 | "  nEW york " normalises to "New york"; only the very first letter is capitalised |
| WeatherData.CurrentOf | src/front/components/WeatherWidget.jsx:16 | `weather?.current`: no reading when the snapshot is absent, otherwise the snapshot's own current reading |
| WeatherData.Forecast3 | src/front/components/WeatherWidget.jsx:17 | `forecast3` is a prefix of the forecast of at most three days, the whole forecast when shorter, and empty when the forecast is absent |
| WeatherData.Forecast3Length | src/front/components/WeatherWidget.jsx:17 | `forecast3` has min(3, n) days |
| WeatherData.DayAbbrev | src/front/components/WeatherWidget.jsx:142 | the day label has min(3, n) characters, no lower-case letter, and the letters of the day name's first three characters |
| WeatherData.ThemeDescription | src/front/components/WeatherWidget.jsx:171 | the theme input is the current description when present and non-empty, else the empty text |
| WeatherData.CardTheme | src/front/components/WeatherWidget.jsx:171 | an absent current reading or description gives Default; otherwise the theme of the description |
| Widget.Init | src/front/components/WeatherWidget.jsx:12-14 | the widget mounts closed unless `defaultOpen`; it is in search mode exactly when no city was given, and the query is the given city |
| Widget.Toggle | src/front/components/WeatherWidget.jsx:19 | the open/close button flips `open` and leaves `searchMode` and `query` alone |
| Widget.ToggleInvolutive | src/front/components/WeatherWidget.jsx:19 | pressing open/close twice restores the state |
| Widget.ToggleSettings | src/front/components/WeatherWidget.jsx:54-62 | the settings button flips `searchMode` and keeps `open`; entering search mode clears the query, leaving it keeps the query |
| Widget.ToggleSettingsTwice | src/front/components/WeatherWidget.jsx:54-62 | pressing settings twice returns to the same mode with an empty query |
| Widget.EditQuery | src/front/components/WeatherWidget.jsx:92 | typing replaces the query and nothing else |
| Widget.Submit | src/front/components/WeatherWidget.jsx:21-29 | a blank query changes nothing and emits nothing. Otherwise exactly one effect carries the normalised name: the callback if given, else a write to `home.city`. Search mode then ends, the query is cleared and `open` is kept |
| Widget.TypeThenSubmit | src/front/components/WeatherWidget.jsx:21-29 | typing a non-blank text and submitting emits exactly that text normalised, and clears the query |
| Widget.SubmittedNameIsNormalized | src/front/components/WeatherWidget.jsx:23-26 | any emitted name is non-empty and a fixed point of normalisation |
| Widget.Dispatch | src/front/components/WeatherWidget.jsx:36-92 | each event runs its handler: the open/close buttons (lines 36, 74) toggle, the settings button (line 54) switches mode, the input (line 92) edits the query, the form (line 86) submits. Only a submission emits an effect, and only open/close moves `open` |
| Widget.Run | src/front/components/WeatherWidget.jsx:21-29 | over any event sequence, at most one effect per submission is emitted, each carries a non-empty normalised name, and a run that starts by submitting a non-blank query emits that submission's effect first |
| Widget.RunSubmitEmits | src/front/components/WeatherWidget.jsx:24-28 | a non-blank submission followed by any events emits exactly its own effect and then the effects of the rest of the run |
| Widget.RunNoSubmitNoEffect | src/front/components/WeatherWidget.jsx:21-29 | a sequence of events without a submission emits no effect |
| Widget.RunOpenParity | src/front/components/WeatherWidget.jsx:19 | after any event sequence, `open` is flipped exactly when the open/close button was pressed an odd number of times |
| Widget.HeaderOf | src/front/components/WeatherWidget.jsx:46-47 | the header shows the snapshot's country or nothing, and the snapshot's city or else the `city` input |
| Widget.WeatherInfo | src/front/components/WeatherWidget.jsx:98-122 | loading takes precedence, then the current reading, else "No data" |
| Widget.Render | src/front/components/WeatherWidget.jsx:176-204 | closed shows only the button. Open shows the themed card: the search form exactly in search mode, else the weather information. Stats appear iff not in search mode and a current reading exists; the forecast appears iff not in search mode and `forecast3` is non-empty |
| Widget.RenderWellFormed | src/front/components/WeatherWidget.jsx:195-204 | a shown forecast has one to three days, and the search form never comes with stats or forecast |
| Widget.LoadingIgnoresWeather | src/front/components/WeatherWidget.jsx:99-110 | while loading, the information panel is the loading indicator whatever the snapshot |
| Widget.ToggleSwitchesView | src/front/components/WeatherWidget.jsx:176 | after open/close, the collapsed button shows exactly when the card was open |
| Widget.SubmitLeavesSearchForm | src/front/components/WeatherWidget.jsx:195-201 | after a non-blank submission from the open card, the search form is no longer shown |
| Widget.InitWithoutCityShowsSearch | src/front/components/WeatherWidget.jsx:12-14 | mounted open without a city, the widget shows the search form with an empty query |

## Left out

- JSX markup, CSS classes, icons and the `lucide-react` components: presentation only.
- The dark-mode class from `useGlobalReducer` (lines 9-10): it comes from a hook that is not part of this model.
- The `weatherThemes` values and the size/width constants: they are imported from files that are not part of this model. The theme is an eight-valued enum.
- `localStorage.setItem` and `onChangeCity`: they are returned as effect values. Nothing is written or called.
- `Math.round` on temperatures (lines 115, 145): this is floating-point rounding. Temperatures are kept as opaque `real` fields.
- `e.preventDefault()` (line 22): a browser event detail with no effect on the state.
- Ascii.Lower: maps only the ASCII letters A-Z. JavaScript `toLowerCase` also maps other Unicode letters.
- Ascii.UpperChar: maps only the ASCII letters a-z. JavaScript `toUpperCase` also maps other Unicode letters.
- Ascii.Upper: maps only the ASCII letters a-z and keeps the length. JavaScript `toUpperCase` also maps other Unicode letters and can change a string's length (ß becomes SS).
- Ascii.Trim: enumerates the white-space characters by code point (the Unicode space separators, TAB, VT, FF, NBSP, ZWNBSP and the line terminators). A later Unicode revision that adds space separators is not followed.
- React's asynchronous, batched `setState`: each handler is one atomic, synchronous transition. This includes the `setQuery("")` nested inside the `setSearchMode` updater (lines 55-62).
- Widget.Submit: the handler is modelled as callable in any state, as the code allows. The form that calls it is only rendered in search mode.
- Widget.Dispatch: accepts every event in every state, so `Widget.Run` covers more event sequences than the UI allows. The settings button is only rendered inside the open card (line 193), and the input and form only in search mode (lines 195-196). The properties of `Widget.Run` are proved for all sequences, so they hold for the reachable ones too.
- Widget.Submit: the effects are assumed to complete without throwing. In the code the callback or `localStorage.setItem` runs before the state update (lines 25-28). If it throws (a blocked storage's SecurityError, a QuotaExceededError), search mode stays on, the query keeps its text and the error propagates. The model always ends search mode and clears the query.
- WeatherData.DayAbbrev: stands apart from `Widget.Render`. The rendered forecast holds the raw days, and the label of each day (line 142) is `DayAbbrev` of its day name. DayAbbrev also counts characters as Unicode code points. JavaScript `slice(0, 3)` counts UTF-16 code units, so the two differ on characters outside the Basic Multilingual Plane: for "😀Mon", the code gives "😀M" and the model gives "😀MO".
