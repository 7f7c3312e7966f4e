# Weather proxy: request handlers

A model of the two request handlers of a small weather proxy (`app.py`):

- `/weather?city=…` asks the provider's current-weather endpoint for the city and
  answers with a flat JSON snapshot: city name, temperature, feels-like
  temperature, humidity, wind in mph, a title-cased sky condition and a rain message.
- `/hourly?city=…` asks the same endpoint only for the city's coordinates, then
  asks the forecast endpoint at those coordinates. It draws a chart of the first
  eight forecast entries (time label `HH:MM` against temperature).

Both handlers are pure functions here (`App.HandleWeather`, `App.HandleHourly`).
Their inputs are the `city` query parameter and the upstream replies, each a
status code plus a decoded body. Their result is the response together with the
list of upstream requests the handler issued. So "no upstream call when the city
is missing" is a statement about that list.

Files:

- `wrappers.dfy`: `Option`.
- `numbers.dfy`: JSON numbers and what an f-string prints for them. Integers are
  printed in decimal. A canonical parser (`ParseInt`) is proved to be its exact inverse.
- `pystr.dfy`: the Python string operations the handlers use. These are
  `str.title`, `str.split(" ")` with its partner `join`, and the slice `[:n]`.
- `app.dfy`: payloads, responses, the snapshot shaping, the forecast series and
  both handlers, with the lemmas relating them.

Two points of the handlers' behaviour are easy to misread:

- `/hourly` answers a failed current-weather lookup with a fixed 404
  (app.py:96), while `/weather` passes the upstream status through
  (app.py:51). `App.NotFoundStatusesDiverge` states the difference.
- The sky condition is Python's `str.title`: a letter is upper-cased whenever
  the character before it is not cased, and lower-cased otherwise. So
  `"they're"` becomes `"They'Re"` and `"3rd"` becomes `"3Rd"`.

## Model

| member | source | states |
|---|---|---|
| Numbers.Decimal | app.py:46 | the decimal text of a natural number: at least one digit, digits only, no leading zero unless the number is 0 |
| Numbers.ValueOfDecimal | app.py:46 | the decimal text of n reads back as n |
| Numbers.DecimalValueOf | app.py:46 | every canonical digit string is the decimal text of its value |
| Numbers.ParseStr | app.py:46 | the text an f-string writes for an integer (sign and digits) reads back as that integer |
| Numbers.StrParse | app.py:46 | only the text written for integer i reads back as i |
| Numbers.Str | app.py:46 | the `{…}` rendering of a number: for an integer, a minus sign exactly when it is negative, followed by canonical digits; for a float, the text Python prints |
| Numbers.ParseIntStr | app.py:46 | reading text back gives i if and only if the text is what Python writes for i |
| PyStr.Upper | app.py:45 | a lower-case letter becomes the upper-case letter at the same place in the alphabet; upper-case letters and uncased characters are unchanged |
| PyStr.Lower | app.py:45 | an upper-case letter becomes the lower-case letter at the same place in the alphabet; lower-case letters and uncased characters are unchanged |
| PyStr.TitleChar | app.py:45 | the per-character step of `str.title`: a letter stays the same letter, lower-case exactly after a cased character and upper-case otherwise; whether it is cased is kept |
| PyStr.TitleFrom | app.py:45 | the `str.title` scan keeps the length; each character is lower-cased after a cased character of the original text and upper-cased otherwise |
| PyStr.Title | app.py:45 | title-casing keeps the length; character k is lower-cased exactly when character k-1 of the input is a cased letter, otherwise upper-cased |
| PyStr.TitleKeepsCased | app.py:45 | title-casing keeps whether each character is cased |
| PyStr.TitleLowerWord | app.py:45 | a word of lower-case letters is title-cased by raising its first letter only |
| PyStr.TitleAppendUncased | app.py:45 | an uncased character added at the end is kept and does not change the title-casing before it |
| PyStr.TitleAfterUncased | app.py:45 | after an uncased character title-casing starts afresh, so the two sides are title-cased independently |
| PyStr.TitleIdempotent | app.py:45 | title-casing twice gives the same text as title-casing once |
| PyStr.Split | app.py:74 | `split(" ")` gives at least one piece; no piece contains the separator; joining the pieces with it gives back the input; there are two or more pieces exactly when the input contains the separator |
| PyStr.SplitNoSep | app.py:74 | a text without the separator splits into itself alone |
| PyStr.SplitAtFirst | app.py:74 | splitting cuts at the first separator: the piece before it, then the split of the rest |
| PyStr.SplitJoin | app.py:74 | splitting undoes joining pieces that do not contain the separator |
| PyStr.Prefix | app.py:74 | the slice `[:n]` is a prefix of the text of length min(n, length) |
| App.StatusOf | app.py:49-96 | a JSON snapshot or a chart goes out with 200, an error with its own status, an escaped exception with Flask's 500 |
| App.CityGiven | app.py:26 | `not city` is true for a missing parameter and for the empty string, and false for any other text (also app.py:57) |
| App.OneHour | app.py:46 | the rain volume is the "1h" entry when present and the integer 0 otherwise |
| App.RainField | app.py:46 | the rain message is "No rain" exactly when the payload has no "rain" key |
| App.RainVolumeOfRainField | app.py:46 | a rain message carries between its fixed lead and " mm" exactly the printed volume ("1h" or 0), and "No rain" carries none |
| App.RainFieldExamples | app.py:46 | "1h" = 2.5 gives "Rain volume in last hour: 2.5 mm"; a rain object without "1h" gives "… 0 mm"; no rain key gives "No rain" |
| App.ShapeSnapshot | app.py:39-47 | city, temperature, feels-like and humidity are the payload's values unchanged; the wind text is the rendered mph value followed by " mph"; the sky condition is the title-cased description; the rain text is the rain message of the payload's "rain" key (see `App.RainField`) |
| App.SkyConditionExample | app.py:45 | "light rain" is shown as "Light Rain" |
| App.HandleWeather | app.py:24-51 | no upstream call exactly when the city is missing or empty, then 400 "City parameter is required"; otherwise one current-weather call for that city, and the response status always equals the upstream status; JSON snapshot exactly on 200, else "City not found." with the upstream status |
| App.HourLabel | app.py:74 | the hour label has at most five characters and no space |
| App.HourLabelAfterFirstSpace | app.py:74 | the hour label is a prefix of the text after the first space |
| App.HourLabelOfStamp | app.py:74 | for a stamp "date time", the label is the first five characters of the time |
| App.HourLabelIgnoresLaterPieces | app.py:74 | pieces after the time part do not change the label |
| App.HourLabelExample | app.py:74 | "2024-05-01 12:00:00" is labelled "12:00" |
| App.Splittable | app.py:74 | entries are splittable exactly when each `dt_txt` splits on " " into at least two pieces, i.e. when `split(" ")[1]` does not raise `IndexError` |
| App.FirstEntries | app.py:74 | `list[:8]` is a prefix of the list of length min(8, length) |
| App.Hours | app.py:74 | one label per entry, in order: label k is the hour label of entry k |
| App.Temperatures | app.py:75 | one temperature per entry, in order: temperature k is entry k's temperature |
| App.HandleHourly | app.py:55-96 | no upstream call exactly when the city is missing or empty (then 400); a failed current-weather lookup gives 404 "City not found." after that one call; two calls exactly when it succeeds, the second at its lat/lon; a failed forecast gives its status with "Error fetching hourly forecast data."; a chart exactly when both succeed and the first eight stamps contain a space, titled with the requested city, with index-aligned labels and temperatures of length min(8, entries); when both succeed but a first-eight stamp has no space, an uncaught `IndexError` (status 500) |
| App.MissingCityShortCircuits | app.py:25-58 | without a city both endpoints answer 400 "City parameter is required" with no upstream call, whatever upstream would have replied |
| App.NotFoundStatusesDiverge | app.py:51-96 | on a failed current-weather lookup `/hourly` answers 404, and the two endpoints give the same status exactly when upstream said 404 |
| App.HourlyIgnoresLaterEntries | app.py:74-75 | forecast entries after the eighth change nothing in the `/hourly` response, not even whether it fails |

## Left out

- Outbound HTTP requests and JSON decoding: each upstream reply is an input (status and decoded body). The API key and the `units=metric` parameter are fixed and not recorded in `Call`.
- Flask routing, `jsonify`/`send_file` serialisation, CORS and `app.run` are framework plumbing. A response is a value of `Response`.
- Loading the environment and the startup `ValueError` for missing settings: process setup, not per-request logic; the settings are taken to be present.
- Chart drawing and PNG encoding (matplotlib): only the title and the series handed to the plot are modelled (`Response.Png`).
- Wind conversion `round(speed * 2.237, 1)` is floating point. It is the parameter `windMph` of `App.ShapeSnapshot`; the model states only that the wind text is that rendering followed by " mph".
- Float values are kept as the text Python's `str` prints for them (`Number.Float`); binary floating point and its formatting are not modelled.
- The unused `rain_status` variable (a different message and a truthiness test) never reaches a response and is not modelled.
- PyStr.Title: case mapping covers the ASCII letters only. Other characters are treated as uncased and kept, so Unicode title-casing (accented letters, `ß` becoming two letters, title-case digraphs) is not captured.
- Payload shape errors: the payload datatypes always hold every field the handlers read. So a `KeyError`, an `AttributeError` on a `rain` value that is not an object, or an `IndexError` on an empty `weather` list cannot arise. The one shape error modelled is a forecast stamp without a space, which escapes as `Uncaught("IndexError")`. Its HTTP status is Flask's 500, and Flask's error page itself is not modelled.
- App.HourLabel requires a space in the stamp, because without one `split(" ")[1]` raises `IndexError`; `App.HandleHourly` itself checks this and needs no such requirement.
- Key order and formatting of the JSON bodies are not modelled.
