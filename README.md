# EcoVoyage trip planner — a Dafny model

EcoVoyage is a small trip-cost planner.

- **Browser page.** The page (`web/script.js`) carries fixed price tables: cities with their attractions, cuisines, hotels and travel classes.
  - It prices a selection: attractions per day, three meals per traveller per day, one hotel room per night, one fare per traveller, and 5 % tax rounded to the nearest rupee.
  - It keeps the priced trip in `tripData`.
  - It walks the user through three sections: planner, login, thank-you.
  - It escapes text for HTML.
- **Java service.** A separate service (`src/Ecovoyage.java`) answers a POST with the same figures.
  - It computes them from a flat JSON body in 32-bit `int` arithmetic.
  - It truncates the tax instead of rounding it.

The model has one module per concern:

| module | file | models |
|---|---|---|
| `Wrappers` | wrappers.dfy | `Option` and `Result` |
| `Catalog` | catalog.dfy | the price tables, exactly as declared |
| `Pricing` | pricing.dfy | `calculatePlan`'s arithmetic as a function `Plan`, the `forEach` over the chosen attractions as a loop, and a reference reading of the selection |
| `Screens` | screens.dfy | the page as a class: displayed section, `tripData` and the number fields, with `showOnly`, `calculatePlan`, `handleLogin`, `showThankYou`, `restart` as methods |
| `Escape` | escape.dfy | `escapeHtml` and its inverse |
| `JavaInt` | java_int.dfy | Java `int` wrap-around, `Integer.parseInt`, and `%d` for the response figures |
| `SimpleJson` | simple_json.dfy | `parseSimpleJSON`, a loop over `String.split` pieces filling a map |
| `Calculate` | calculate.dfy | `CalculateHandler.handle` from the body to the six response figures |

Two behaviours of the source are reproduced as written and proved as properties:

- **One destination at most.** `parseSimpleJSON` cuts the body at every comma before it splits a pair at its colon. So no value it returns contains a comma, and the handler's `destinations` loop sees at most one price.
  - `SimpleJson.ParsedClean`, `SimpleJson.CommaCutsValue` and `Calculate.OneDestinationPrice` prove this.
- **Silent overflow.** The handler's `int` products overflow without an error. A total that leaves the 32-bit range is reduced modulo 2³², and the tax is taken from the reduced figure.
  - `Calculate.Handle` is proved equal to "exact figures, then reduced" (`Calculate.Reduced`).
  - `Calculate.ExactWithoutOverflow` shows the two agree when nothing overflows.
  - `Calculate.TravelOverflow` gives an input where they differ.

Two behaviours a reader might expect are not what the code does; the model follows the code:

- **Non-numeric fields.** A non-numeric room, traveller or day field makes `parseInt` return `NaN`, and `Math.max(1, NaN)` is `NaN`. It is not coerced to 1.
  - The model takes the integer the field yields. A blank field reads as 1 (the `|| 1` fallback), and anything below 1 is clamped to 1.
  - The `NaN` path is listed under "Left out".
- **Undefined options.** An undefined cuisine, hotel or travel class does not give an error message. `cuisineObj.cost` throws a `TypeError` and nothing is stored.
  - The model returns the `Threw` outcome and leaves the state unchanged.

## Model

| member | source | states |
|---|---|---|
| Catalog.DataWellFormed | EcoVoyage/web/script.js:12-73 | the declared tables have 7 cities, 3 cuisines, 2 hotels and 2 travel classes, and every name in them is non-empty (so `filter(Boolean)` keeps every name it meets) |
| Pricing.AtLeastOne | EcoVoyage/web/script.js:149-151 | `Math.max(1, n)`: the result is at least 1 and at least `n`, and it is `n` or 1 |
| Pricing.RoundedTax | EcoVoyage/web/script.js:163 | `Math.round(subtotal * 0.05)`: the tax is the nearest whole number to a twentieth of the subtotal, with a half rounded up |
| Pricing.CityResolves | EcoVoyage/web/script.js:138-140 | definition: the index names a city with a non-empty name, the condition under which `!cityName` does not alert; `Pricing.Plan` states what follows from it |
| Pricing.DestCost | EcoVoyage/web/script.js:154-158 | definition, one chosen index at a time: `cost * days` for an index in range, nothing otherwise; `Pricing.DestCostIsSelectedTotal` and `Pricing.OutOfRangeIgnored` state its meaning |
| Pricing.DestNames | EcoVoyage/web/script.js:169 | definition of `map(i => cities[cityName][i]?.name).filter(Boolean)`; `Pricing.DestNamesAreSelected` and `Pricing.DestNamesLength` state its meaning |
| Pricing.AccumulateDestCost | EcoVoyage/web/script.js:154-158 | the `forEach` loop adds `cost * days` for every chosen index that names an attraction of the city and skips the rest; its result equals `DestCost` |
| Pricing.Plan | EcoVoyage/web/script.js:136-185 | an unknown city gives `NoCity`, and only an unknown city does; a breakdown is produced exactly when the city, cuisine, hotel and travel class all exist; the breakdown names the chosen city, clamps rooms, travellers and days to at least 1 (and at least the entered value), and has subtotal = the four costs, the rounded 5 % tax, and grand total = subtotal + tax ≥ subtotal |
| Pricing.Priced | EcoVoyage/web/script.js:159-185 | the breakdown's subtotal is the sum of its four costs and its grand total is subtotal + tax |
| Pricing.Selected | EcoVoyage/web/script.js:155-156 | the chosen attractions that exist, in selection order: at most one per index, each an attraction of the city |
| Pricing.DestCostIsSelectedTotal | EcoVoyage/web/script.js:154-158 | the destination cost is `days` times the total cost of the attractions that really exist under the chosen indexes |
| Pricing.DestNamesAreSelected | EcoVoyage/web/script.js:169 | with non-empty names, `tripData.destinations` is exactly the names of the selected attractions, in order |
| Pricing.OutOfRangeIgnored | EcoVoyage/web/script.js:156-157 | an index that names no attraction changes neither the cost nor the destination list |
| Pricing.AllInRangeSelected | EcoVoyage/web/script.js:155-157 | when every chosen index is in range, every choice is counted, once per occurrence |
| Pricing.DestNamesLength | EcoVoyage/web/script.js:169 | the destination list is never longer than the selection |
| Pricing.BreakdownFigures | EcoVoyage/web/script.js:154-169 | in a produced breakdown, food = per-meal cost × 3 × days × travellers, hotel = nightly cost × days × rooms, travel = fare × travellers, destinations = days × selected total; the stored cuisine, hotel and travel-class names and the per-meal and per-night prices are those of the chosen options; an empty selection costs nothing; the names are those of the selected attractions |
| Pricing.ParisExample | EcoVoyage/web/script.js:136-185 | Paris with the Eiffel Tower and the Louvre, the cheapest cuisine, budget hotel and economy class, 2 days, 2 travellers, 1 room: subtotal 62600, tax 3130, grand total 65730 |
| Screens.Position | EcoVoyage/web/script.js:275 | the index of a section in the `sections` array, which holds that section |
| Screens.OnlyShown | EcoVoyage/web/script.js:274-281 | the display pattern has one entry per section; the entry at the named section's position is shown and every other entry is hidden |
| Screens.App.Screen | EcoVoyage/web/script.js:274-281 | in a valid state the displayed section is the one whose only-shown pattern the display equals |
| Screens.App.constructor | EcoVoyage/web/script.js:9 | a loaded page stores no trip, shows the planner and uses the declared tables |
| Screens.App.EditCounts | EcoVoyage/web/script.js:149-151 | the number fields hold what the user typed, and nothing else changes |
| Screens.App.ShowOnly | EcoVoyage/web/script.js:274-281 | afterwards exactly the named section is displayed |
| Screens.App.CalculatePlan | EcoVoyage/web/script.js:136-191 | on a priced plan: `tripData` is the `Plan` breakdown of the current fields and the login page is shown; with no city: the city alert, nothing changed; with an undefined cuisine, hotel or travel class: a throw, nothing changed; it keeps "login and thank-you only with a stored trip" |
| Screens.TrimStart | EcoVoyage/web/script.js:223-225 | removes exactly the leading ECMAScript white space: the rest is a suffix that does not start with white space |
| Screens.TrimEnd | EcoVoyage/web/script.js:223-225 | removes exactly the trailing white space: the rest is a prefix that does not end with white space |
| Screens.Trim | EcoVoyage/web/script.js:223-225 | definition: `TrimEnd` after `TrimStart`; `Screens.TrimShape` and `Screens.TrimBlank` state its meaning |
| Screens.AnyBlank | EcoVoyage/web/script.js:227 | definition of the guard that alerts when the trimmed name, phone or email is empty; `Screens.TrimBlank` says a field is blank exactly when it is all white space |
| Screens.TrimBlank | EcoVoyage/web/script.js:223-227 | a field trims to the empty text exactly when all of it is white space |
| Screens.TrimShape | EcoVoyage/web/script.js:223-225 | the trimmed text is a contiguous part of the field that neither starts nor ends with white space |
| Screens.App.HandleLogin | EcoVoyage/web/script.js:221-234 | a blank name, phone or email: the contact alert and nothing changes; otherwise without a trip: the calculate-first alert and the planner; with a trip: the thank-you page; `tripData` is never changed |
| Screens.App.ShowThankYou | EcoVoyage/web/script.js:236-271 | without a trip: the calculate-first alert and the planner is shown; with one: the thank-you page; `tripData` unchanged |
| Screens.App.Restart | EcoVoyage/web/script.js:284-295 | `tripData` is cleared, the three number fields hold 1 and the planner is shown |
| Screens.RestartThenLogin | EcoVoyage/web/script.js:221-243 | after a restart, logging in never reaches the thank-you page: it alerts (contact or calculate-first) and stays on the planner |
| Escape.Entity | EcoVoyage/web/script.js:299 | each of `& < > " '` maps to its entity (`&amp;` … `&#39;`), which starts with `&` and ends with `;` and holds no markup character; any other character is kept |
| Escape.EscapeHtml | EcoVoyage/web/script.js:298-300 | the result is at least as long as the input and contains none of `< > " '` |
| Escape.EscapeConcat | EcoVoyage/web/script.js:299 | escaping works character by character: escaping a concatenation concatenates the escapes |
| Escape.EscapePlain | EcoVoyage/web/script.js:299 | text with none of the five special characters is unchanged |
| Escape.EscapeAt | EcoVoyage/web/script.js:299 | escaping a text is the escape of its prefix, then the entity of the next character, then the escape of the rest |
| Escape.UnescapeEntity | EcoVoyage/web/script.js:299 | decoding an escaped character followed by any escaped text gives back that character |
| Escape.UnescapeEscape | EcoVoyage/web/script.js:298-300 | decoding the five entities undoes `escapeHtml`: no information is lost |
| Escape.EscapeInjective | EcoVoyage/web/script.js:298-300 | different texts escape to different texts |
| JavaInt.Wrap | EcoVoyage/src/Ecovoyage.java:60-69 | reduces any integer into the 32-bit `int` range, and leaves in-range values alone |
| JavaInt.WrapAdd | EcoVoyage/src/Ecovoyage.java:60 | adding to a wrapped value and wrapping equals wrapping the exact sum |
| JavaInt.WrapMul | EcoVoyage/src/Ecovoyage.java:64-66 | multiplying a wrapped value and wrapping equals wrapping the exact product |
| JavaInt.ParseInt | EcoVoyage/src/Ecovoyage.java:49-54 | `Integer.parseInt` of an accepted decimal text is a value in the `int` range |
| JavaInt.Decimal | EcoVoyage/src/Ecovoyage.java:71-80 | definition of `%d`: a minus sign for a negative number, then the digits; `JavaInt.ParseDecimal` states that it reads back |
| JavaInt.Digits | EcoVoyage/src/Ecovoyage.java:71-80 | the `%d` digit string of a natural number is non-empty, made only of ASCII digits, has no leading zero and reads back as the number |
| JavaInt.ParseDecimal | EcoVoyage/src/Ecovoyage.java:71-80 | parsing the `%d` rendering of an `int` gives it back |
| SimpleJson.RemoveStripped | EcoVoyage/src/Ecovoyage.java:92 | `replaceAll("[{}\" ]", "")`: the result is no longer than the text and holds no brace, double quote or space |
| SimpleJson.RemoveStrippedConcat | EcoVoyage/src/Ecovoyage.java:92 | the removal works piece by piece: stripping a concatenation concatenates the stripped parts |
| SimpleJson.RemoveStrippedAt | EcoVoyage/src/Ecovoyage.java:92 | each character is decided on its own: a brace, double quote or space is deleted, any other character stays in place |
| SimpleJson.RemoveStrippedClean | EcoVoyage/src/Ecovoyage.java:92 | a text that already holds no brace, double quote or space is left as it is |
| SimpleJson.SplitAll | EcoVoyage/src/Ecovoyage.java:93 | cutting at every separator gives at least one piece; `SimpleJson.SplitAllPieces` and `SimpleJson.JoinSplitAll` state what the pieces are |
| SimpleJson.SplitAllPieces | EcoVoyage/src/Ecovoyage.java:93 | cutting at every separator yields pieces none of which contains the separator |
| SimpleJson.JoinSplitAll | EcoVoyage/src/Ecovoyage.java:93 | joining the pieces with the separator gives back the text |
| SimpleJson.DropTrailingEmpty | EcoVoyage/src/Ecovoyage.java:93 | the result is a prefix of the pieces whose last piece is non-empty, and every piece it removes is empty |
| SimpleJson.JavaSplit | EcoVoyage/src/Ecovoyage.java:93 | `split(",")` of a text without a comma is that text alone |
| SimpleJson.JavaSplitPieces | EcoVoyage/src/Ecovoyage.java:93 | no piece of `split(",")` contains a comma, clean text gives clean pieces, and with a comma present the pieces are the cut pieces up to the last non-empty one, everything dropped being empty |
| SimpleJson.Key | EcoVoyage/src/Ecovoyage.java:95-96 | the key of `split(":", 2)` holds no colon |
| SimpleJson.Value | EcoVoyage/src/Ecovoyage.java:95-96 | key, colon and value put together give back the piece: the cut is at the first colon |
| SimpleJson.PutPair | EcoVoyage/src/Ecovoyage.java:94-96 | definition of one loop step: a piece with a colon puts its key and value, any other piece is skipped |
| SimpleJson.Fill | EcoVoyage/src/Ecovoyage.java:93-98 | definition: the map after the pieces in order; `SimpleJson.FillKeys` and `SimpleJson.FillLastWins` state its keys and values |
| SimpleJson.Parsed | EcoVoyage/src/Ecovoyage.java:90-100 | definition: `Fill` over the pieces of the stripped body; `SimpleJson.ParsedClean` and `SimpleJson.CommaCutsValue` state its meaning |
| SimpleJson.ParseSimpleJson | EcoVoyage/src/Ecovoyage.java:90-100 | the loop's map is the one the pieces fill in order (`Parsed`) |
| SimpleJson.FillKeys | EcoVoyage/src/Ecovoyage.java:93-98 | a key is in the map exactly when some piece holding a colon names it |
| SimpleJson.FillLastWins | EcoVoyage/src/Ecovoyage.java:96 | a key's value comes from the last piece that names it (`put` overwrites) |
| SimpleJson.KeyValueClean | EcoVoyage/src/Ecovoyage.java:95-96 | the key and value of a cleaned piece are themselves clean |
| SimpleJson.ParsedClean | EcoVoyage/src/Ecovoyage.java:90-100 | no key holds a colon or a comma, no value holds a comma, and neither holds a brace, quote or space |
| SimpleJson.IndexOfAfter | EcoVoyage/src/Ecovoyage.java:95 | the first occurrence of a character not in the prefix is just after that prefix |
| SimpleJson.PiecesOfTwo | EcoVoyage/src/Ecovoyage.java:93 | a cleaned body with one comma gives one or two pieces, the empty trailing piece being dropped |
| SimpleJson.CommaCutsValue | EcoVoyage/src/Ecovoyage.java:90-100 | a body that cleans to `key:first,rest` (with no further colon) parses to the single entry `key ↦ first`: a quoted value such as `"12,30"` is cut at its comma |
| Calculate.GetOrDefault | EcoVoyage/src/Ecovoyage.java:49-56 | definition of `getOrDefault`; `Calculate.Defaults` and `Calculate.ReadsPresentKeys` state what the handler reads through it |
| Calculate.ReadsPresentKeys | EcoVoyage/src/Ecovoyage.java:49-56 | every key present in the body is read from it (the six numbers with `parseInt`, the destinations segment by segment); the default is used only when the key is missing |
| Calculate.JavaTrim | EcoVoyage/src/Ecovoyage.java:60 | `String.trim`: no longer than the text, and a non-empty result neither starts nor ends with a character ≤ space |
| Calculate.JavaTrimShape | EcoVoyage/src/Ecovoyage.java:60 | the trimmed text is the segment from some position on, and every character of the segment before and after it is ≤ space: only a leading and a trailing run are removed |
| Calculate.SegmentPrices | EcoVoyage/src/Ecovoyage.java:59-60 | definition: `Integer.parseInt(s.trim())` of each segment, in order; `Calculate.AccumulateDestTotal` is proved against it |
| Calculate.DestinationValues | EcoVoyage/src/Ecovoyage.java:56-61 | one price per `split(",")` piece, none for an empty field |
| Calculate.Decode | EcoVoyage/src/Ecovoyage.java:49-61 | every number read from the body is in the `int` range |
| Calculate.TruncatedTax | EcoVoyage/src/Ecovoyage.java:68 | `(int) (total * 0.05)`: a twentieth of the total truncated toward zero, for negative totals too |
| Calculate.AccumulateDestTotal | EcoVoyage/src/Ecovoyage.java:57-62 | the `for` loop's 32-bit running total equals the exact sum of the prices times `days`, reduced to 32 bits |
| Calculate.Handle | EcoVoyage/src/Ecovoyage.java:46-80 | the six response figures are the exact prices of the decoded request, each reduced to 32 bits, with the tax taken from the reduced total; the response renders each of them with `%d` under its key, and each rendering reads back as its figure |
| Calculate.Figures | EcoVoyage/src/Ecovoyage.java:64-69 | definition: lines 64-69 as written, every product and sum wrapped at each step; `Calculate.StepwiseIsReduced` states its meaning |
| Calculate.Finish | EcoVoyage/src/Ecovoyage.java:67-69 | definition: the stepwise `int` total, its truncated tax and the grand total; `Calculate.FinishReduces` states its meaning |
| Calculate.Response | EcoVoyage/src/Ecovoyage.java:71-80 | definition: the six `"key": %d` fields in response order; `Calculate.ResponseReadsBack` states that they read back |
| Calculate.ReducedInRange | EcoVoyage/src/Ecovoyage.java:64-69 | every figure the handler replies with, the tax included, is in the `int` range |
| Calculate.ResponseReadsBack | EcoVoyage/src/Ecovoyage.java:71-80 | each `%d` field of the response is accepted by `Integer.parseInt` and reads back as the figure it renders |
| Calculate.StepwiseIsReduced | EcoVoyage/src/Ecovoyage.java:64-69 | wrapping every product and sum step by step gives the same figures as exact arithmetic reduced once |
| Calculate.FinishReduces | EcoVoyage/src/Ecovoyage.java:67-69 | summing the reduced figures step by step gives the reduced total, tax and grand total |
| Calculate.WrapSum4 | EcoVoyage/src/Ecovoyage.java:67 | the stepwise 32-bit sum of four figures is the exact sum reduced to 32 bits |
| Calculate.ExactWithoutOverflow | EcoVoyage/src/Ecovoyage.java:64-69 | when no figure leaves the `int` range, the response is the exact quote |
| Calculate.ExactTax | EcoVoyage/src/Ecovoyage.java:67-69 | for a non-negative subtotal the exact tax is `subtotal / 20` rounded down and the grand total is subtotal + tax ≥ subtotal |
| Calculate.Defaults | EcoVoyage/src/Ecovoyage.java:49-56 | a missing key counts as one day, traveller or room, zero prices and no destinations |
| Calculate.ZeroDaysNotClamped | EcoVoyage/src/Ecovoyage.java:49-65 | the service does not clamp `days` to 1: with `"days":"0"` the destination, food and hotel figures are 0 |
| Calculate.OneDestinationPrice | EcoVoyage/src/Ecovoyage.java:56-62 | the destinations loop sees at most one price, the whole (trimmed) field |
| Calculate.TravelOverflow | EcoVoyage/src/Ecovoyage.java:66 | 30000 travellers at the business fare (90000) cost 2700000000 exactly, but the response says −1594967296 |

## Left out

- **DOM rendering.** The model leaves out `populateDropdown`, `updateDestinations`, `renderSummaryOnPlanner`, the thank-you texts (name, email, phone, summary, breakdown), `formatCurrency`, the rupee/dollar rate and the images. They only write text into the page and change no state the model keeps.
- **Reading inputs from the DOM.** The checked attractions, the select values and the number fields are given to `CalculatePlan` and `EditCounts` as parameters.
  - A `NaN` from `parseInt` on such a field is not modelled: the source then stores `NaN` figures, since `Math.max(1, NaN)` is `NaN`.
  - Likewise an index read with `parseInt` is taken to be an integer.
- **Missing sections.** When a section is absent from the page, `showOnly` skips that section (`if (!el) return`). The model assumes the three sections exist.
- **The initial display.** `index.html` is not part of this model. The constructor starts on the planner page with no trip stored.
- **Alert text.** Alerts are a value (`Alerted(...)`); the dialog itself is not modelled.
- Pricing.Plan: exact integer arithmetic, which matches the page only while every figure stays below 2⁵³. The counts are user input, and above that bound the page's figures are rounded doubles. For example, Paris with the Eiffel Tower for 3000000000000001 days costs 3600000000000001200 in the model, while the page's `1200 * days` gives 3600000000000001024. `Screens.App.CalculatePlan` inherits this.
- **Floating point.** Within that bound, JavaScript arithmetic on whole rupees is exact integer arithmetic.
  - `Math.round(x * 0.05)` is modelled as rounding to the nearest twentieth, with half rounded up.
  - Java's `(int)(total * 0.05)` is modelled as truncation toward zero. The `double` rounding of `total * 0.05` for very large totals is not modelled.
- **The HTTP layer.** The model leaves out the server set-up, the 405 reply to other methods, headers and byte encoding. The response text is modelled as its six `"key": %d` fields; the braces, line breaks and indentation around them are not modelled.
- **Calculate.Handle.** Its precondition requires that every number field holds an accepted decimal `int`. A malformed number makes the source throw `NumberFormatException`, so the request fails without a reply; that path is not modelled.
- **JavaInt.ParseInt.** It accepts an optional sign followed by ASCII digits only. The non-ASCII digits that `Integer.parseInt` also accepts are not modelled.
- **Escape.EscapeHtml.** It takes a string. The `String(str)` conversion of non-string arguments is not modelled.
- **Order of evaluation.** The model does not reproduce the moment at which the `TypeError` is thrown for an undefined option: the source reads `cuisineObj.cost` only after the destination loop. Nothing is stored either way.
