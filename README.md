# Anime searcher: verified model of the search, selection and gradient rules

The program is a Tkinter window over the AniList GraphQL API. The user types a title and
presses Search, and the list box fills with numbered titles. Selecting an entry shows that
entry's details and its cover image. A two-colour gradient is painted behind the widgets.
This project models the parts of that script that have rules of their own:

- **Display title** (`Media.DisplayTitle`). A media entry is shown under its English title
  when that title is truthy in Python's sense (neither `None` nor `""`). Otherwise it is
  shown under its romaji title, whatever that is. The list entries and the details view
  use the same rule.
- **Details text** (`Media.DetailsText`). The `anime_info` dictionary (`Media.Info`, keyed
  by `Media.Key`) is rendered by a triple-quoted f-string with eight labelled lines. Values
  go through Python's `str()`, so a missing value prints `None`.
- **Search button** (`Search.ResultList.OnSearch`). The entry text is stripped. A blank
  query shows a warning. An empty answer shows a notice and leaves the list box as it was.
  Any other answer rebuilds the list box as `"{i+1}. {title}"` entries in answer order,
  selects entry 0 and shows its details.
- **Selection** (`Search.ResultList.OnSelect`). The first selected index is looked up in
  the media list the entries were built from (`Search.Lookup`, an `IndexError` past the
  end). The script itself re-runs the search and indexes into that answer; see
  "## Findings" and `Search.ResultList.OnSelectRequery`.
- **Gradient** (`Gradient.DrawGradient`). `#2d2d2d` and `#434343` are parsed channel by
  channel with `int(_, 16)`. Each row `i` of `height` gets
  `(c0 * (height - i) + c1 * i) / height` per channel, and the result is formatted as
  `#%02x%02x%02x`.

Supporting modules: `Wrappers` (Option, Result), `Numerals` (digits in a base, Python's
`str(int)`, `int(s)`, `int(s, 16)` and `%02x`), and `PyText` (`str.strip()`,
`sep.join`, slicing, `str()` of a value).

The network is not modelled. The media list that `search_anime` would return is a
parameter of `OnSearch`, and the cover URL is returned as data instead of being fetched.
The message boxes are returned as `Search.Dialog` values. The list box is a class with
three fields: its entries, its selection, and the held media list.

Three behaviours a reader might expect are not in the code, and the model follows the code:
- No "Untitled" placeholder is used. When the English title is falsy and the romaji
  title is `None`, the title prints as `None`.
- Missing optional fields are not blanked. They print as `None`.
- Selection indices come from `curselection()` and are never negative, so `Lookup` takes
  a natural number.

## Model

| member | source | states |
|---|---|---|
| `Media.DisplayTitle` | anime.py:53 | the English title when it is truthy, else the romaji title; the result is truthy exactly when at least one of the two titles is |
| `Media.Truthy` | anime.py:53 | Python's truthiness of an optional title, false for `None` and for `""`; it is the test of the conditionals at lines 53 and 102, specified through `Media.DisplayTitle` |
| `Search.EntryLabel` | anime.py:102-103 | the list entry `f"{i + 1}. {title}"` with the title chosen by line 102's own conditional; specified by `Search.EntryMatchesDetails` |
| `Search.EntryMatchesDetails` | anime.py:101-103 | a list entry shows, after its number, a dot and a space, exactly the text that follows `Title: ` in the details of the same record (the rule at line 53); the number parses back to the 1-based position |
| `Media.TitleLine` | anime.py:53-65 | the first line of the details text is `Title: ` followed by `str()` of the display title |
| `Media.Info` | anime.py:52-62 | the `anime_info` dictionary: the display title, the record's fields and the genres joined by ", "; specified through `Media.DetailsTextFields`, `Media.DetailsNumberFields` and `Media.CoverUrl` |
| `Media.DetailsText` | anime.py:64-73 | the triple-quoted details f-string; specified by `Media.DetailsLayout` (its layout), `Media.DetailsTextFields` and `Media.DetailsNumberFields` (its lines) and `Media.DetailsIgnoreCover` |
| `Media.DetailsLines` | anime.py:64-73 | the details text has one line for each of the eight labels |
| `Media.DetailsLayout` | anime.py:64-73 | the details text is a newline, then the lines Title, Type, Format, Episodes, Status, Genres, Average Score, Synopsis joined by newlines in that order, then a newline and four spaces |
| `Media.TerminatedIsJoin` | anime.py:64-73 | lines that each end in a newline form the same text as the lines joined by newlines plus one final newline |
| `Media.DetailsTextFields` | anime.py:52-72 | the Title line holds the display title (`None` when absent); Type, Format and Status hold `str()` of those fields; Genres holds the genres joined by ", " in their original order; Synopsis holds the description or `None` |
| `Media.DetailsNumberFields` | anime.py:57-71 | the Episodes and Average Score lines hold the decimal text of the number, or `None` when it is missing |
| `Media.DetailsIgnoreCover` | anime.py:61-73 | changing the cover URL leaves the details text unchanged: the URL is collected but never printed |
| `Media.CoverUrl` | anime.py:61-77 | the URL the cover is downloaded from is the record's `coverImage.extraLarge` (`None` when absent) |
| `Media.NoGenres` | anime.py:59 | an empty genre list gives an empty Genres value |
| `PyText.Join` | anime.py:59 | `', '.join(genres)`; specified by `PyText.JoinAppend` and `PyText.JoinLength`, with `Media.NoGenres` for the empty list |
| `PyText.Str` | anime.py:65-72 | `str()` of a dictionary value in the f-string: the text itself, `None` for a missing value, the decimal text of an integer; specified through `Media.DetailsTextFields` and `Media.DetailsNumberFields` |
| `PyText.JoinAppend` | anime.py:59 | joining two non-empty lists equals joining each and putting one separator between them, so order is kept and no item is dropped or merged |
| `PyText.JoinLength` | anime.py:59 | the joined text is as long as all items together plus one separator between each pair of neighbours |
| `PyText.IsSpace` | anime.py:88 | the characters `str.strip()` removes: CPython's whitespace table (`_PyUnicode_IsWhitespace`), that is U+0009-U+000D, U+001C-U+0020, U+0085, U+00A0, U+1680, U+2000-U+200A, U+2028, U+2029, U+202F, U+205F and U+3000; it decides when `Search.ResultList.OnSearch` rejects a query (`PyText.StripEmpty`) |
| `PyText.LStrip` | anime.py:88 | the result is a suffix of the input, everything removed is whitespace, and the result does not start with whitespace |
| `PyText.RStrip` | anime.py:88 | the result is a prefix of the input, everything removed is whitespace, and the result does not end with whitespace |
| `PyText.Strip` | anime.py:88 | the result is no longer than the input and neither starts nor ends with whitespace |
| `PyText.StripIsInfix` | anime.py:88 | the stripped query is the slice `s[i..j]` of the entry text, with only whitespace before `i` and after `j` |
| `PyText.StripEmpty` | anime.py:88-89 | a text strips to the empty query exactly when every character in it is whitespace |
| `Search.ResultList.OnSearch` | anime.py:87-97 | a whitespace-only entry, and only that, is rejected with the "Input Error" warning and no request; a blank query or an empty answer leaves entries, selection and held list unchanged and an empty answer shows the "No Results" notice with the query; otherwise the listing below happens |
| `Search.ResultList.ListResults` | anime.py:99-107 | afterwards the list box holds exactly one entry per result, entry k being `"{k+1}. " + title` of result k in answer order; the selection is exactly index 0, and the details of result 0 are shown |
| `Search.ResultList.constructor` | anime.py:198-199 | the list box starts empty with nothing selected |
| `Search.Present` | anime.py:51-77 | what `display_anime_details` shows: the details label text (`Media.DetailsText`) and the cover URL it downloads (`Media.CoverUrl`); `Search.ResultList.OnSelect` and `Search.ResultList.ListResults` state which record it is shown for |
| `Search.ResultList.OnSelect` | anime.py:111-117 | with nothing selected nothing happens, and the result is nothing exactly then; otherwise the details text and cover URL of the held result at the first selected index are shown |
| `Search.ResultList.OnSelectRequery` | anime.py:113-116 | as written: the first selected index is looked up in the answer to a repeated search, which shows that answer's entry at that index or fails with `IndexError` when the index is past its end |
| `Search.Lookup` | anime.py:116 | the lookup succeeds exactly when the index is below the list length, and then yields the element at that index; otherwise the result is `IndexError` |
| `Search.SearchTwice` | anime.py:87-107 | after a search that lists results, a later blank query or empty answer leaves the first search's entries, selection and held list in place |
| `Search.StaleEntriesAfterNoResults` | anime.py:95-116 | a listing search, then a search with an empty answer, then a click on entry k: the handler as written fails with `IndexError`, while looking up the held list shows entry k |
| `Gradient.DrawGradient` | anime.py:121-129 | exactly `height` lines are drawn (none when `height <= 0`), and line i runs from (0, i) to (width, i) in the row colour of the two stops, formatted as `#%02x%02x%02x` |
| `Gradient.ParseColor` | anime.py:125-127 | the three `int(c[a:b], 16)` channel reads of a stop; specified by `Gradient.ColorsParse` and, as the inverse of `FormatColor`, by `Gradient.FormatParse` |
| `Gradient.FormatColor` | anime.py:124 | `"#%02x%02x%02x" % (r, g, b)`; specified by `Gradient.FormatParse` |
| `Gradient.Blend` | anime.py:125-127 | one channel `(c0 * (height - i) + c1 * i) / height`; specified by `Gradient.BlendFirst`, `Gradient.BlendBetween` and `Gradient.BlendMonotone` |
| `Gradient.RowColor` | anime.py:124-128 | the colour of row `i`, channel by channel; specified by `Gradient.GradientFill`, `Gradient.GradientLightens` and `Gradient.GradientFirstRow` for the script's stops |
| `PyText.Slice` | anime.py:125-127 | `s[a:b]` with non-negative bounds: within the string it is the slice itself, and the result is never longer than the string or than `b - a` |
| `Gradient.ColorsParse` | anime.py:122-127 | the slices `[1:3]`, `[3:5]` and `[5:7]` of the two stops parse as hexadecimal to 0x2d and 0x43 |
| `Gradient.FormatParse` | anime.py:124 | a colour whose channels fit in a byte is formatted as `#` plus six lower-case hex digits, and parsing the slices of that string gives the same colour back |
| `Gradient.BlendFirst` | anime.py:125-127 | row 0 gets the top stop's channel exactly |
| `Gradient.BlendBetween` | anime.py:125-127 | every row's channel lies between the two stops' channels, whichever stop is larger |
| `Gradient.BlendMonotone` | anime.py:125-127 | moving down the rows, each channel never moves away from the bottom stop: it does not decrease when the bottom stop is larger and does not increase when it is smaller |
| `Gradient.WeightedStep` | anime.py:125-127 | moving from row i down to row j trades j - i shares of the top channel for as many of the bottom channel |
| `Gradient.GradientFill` | anime.py:122-129 | every drawn fill is `#` plus six lower-case hex digits that parse back to the row's colour; the colour is a grey (three equal channels) between 0x2d and 0x43 |
| `Gradient.GradientLightens` | anime.py:122-129 | a lower row is never darker than a higher one |
| `Gradient.GradientFirstRow` | anime.py:122-129 | the first line is filled with the string `#2d2d2d` itself |
| `Numerals.ParseHex02` | anime.py:124-127 | `%02x` text parses back through `int(_, 16)` to the number, and a byte takes exactly two digits |
| `Numerals.ParseLowerHex` | anime.py:124 | unpadded lower-case hex text parses back to the number |
| `Numerals.Hex02` | anime.py:124 | `%02x` output has at least two characters, all of them lower-case hex digits |
| `Numerals.ParseHex` | anime.py:125-127 | the model's reading of `int(s, 16)` on plain digit strings: it succeeds exactly on a non-empty string of ASCII hex digits of either case |
| `Numerals.HexValue` | anime.py:125-127 | a character has a hex value exactly when it is `0-9`, `a-f` or `A-F`, and the value is below 16 |
| `Numerals.IntText` | anime.py:68-71 | `str(n)` of an integer as the Episodes and Average Score lines print it, at least one character; `Numerals.ParseIntText` reads it back |
| `Numerals.NatText` | anime.py:103 | `str(i + 1)` in a list entry: at least one character, all decimal digits; `Search.EntryMatchesDetails` reads it back as `i + 1` |
| `Numerals.ParseIntText` | anime.py:68-71 | the model's `int()` reads back `str(n)` as `n` for every integer, so the decimal text printed for episodes and score determines the number |
| `Numerals.FromToDigits` | anime.py:124 | reading back the digits of n in any base of at least 2 gives n |
| `Numerals.ToDigits` | anime.py:124 | the digit list is non-empty, every digit is below the base, and a positive number has a non-zero leading digit |

## Findings

| source | as written | input that shows it | evidently intended | confidence | as-written member | corrected member |
|---|---|---|---|---|---|---|
| anime.py:95-116 | `on_select` re-runs the search with the entry's current text and indexes into that new answer, not into the list the entries were built from | search "naruto" (answer non-empty), then search a title the API answers with `[]`: the old entries stay on screen; clicking one re-queries that title, gets `[]`, and `anime_list[index]` raises `IndexError` | clicking an entry shows the details of the entry clicked | not executed | `Search.ResultList.OnSelectRequery`, `Search.StaleEntriesAfterNoResults` | `Search.ResultList.OnSelect` |

## Left out

- `search_anime` (anime.py:38-47) is left out because it is an HTTP POST with JSON decoding. Its answer is the `response` parameter of `OnSearch` and the `answer` parameter of `OnSelectRequery`. A failed request or a missing `data.Page.media` path is not modelled.
- The cover download and image handling (anime.py:77-83) are left out because they are network I/O plus PIL and Tk image objects. The model returns the URL (`Search.Shown.coverUrl`) and stops there.
- `create_rounded_button_image` (anime.py:133-144) is left out because it only makes PIL drawing calls.
- Window and widget construction, styling, hover handlers, event binding and `mainloop` (anime.py:147-221) are left out because they are toolkit plumbing. Having the Search button call `OnSearch` and the list box call `OnSelect` is the only wiring the model keeps.
- `event_generate("<<ListboxSelect>>")` (anime.py:107) is modelled as a direct call to `OnSelect` at the end of the listing. Tk's event queue is not modelled.
- `Search.ResultList.Click` stands for a user click in the list box's default browse mode; it is toolkit behaviour, not code of the script.
- `Gradient.DrawGradient`: the float division followed by `int()` in `draw_gradient` is modelled as natural-number division. With channels below 256 the two agree for every height below 2^40; the script draws 700 rows (anime.py:155). For larger heights a double-precision quotient can round up to the next integer (height 2^48 + 1, row 38382951369635 gives 48 where floor division gives 47), and that IEEE rounding is not modelled.
- `Numerals.ParseHex`, `Numerals.HexValue`: `int(s, 16)` is modelled only for plain strings of ASCII hex digits. Signs, surrounding whitespace, underscores, a `0x` prefix and non-ASCII (Unicode) digits, which Python also accepts, give `None` in the model; they never occur in the literal colour slices.
- `Numerals.ParseInt`: `int(s)` is modelled only for ASCII decimal digits after an optional minus sign. A `+` sign, surrounding whitespace, underscores and non-ASCII digits, which Python also accepts, give `None`; the model only reads back text that `str()` printed.
- `Gradient.GradientFill`, `Gradient.GradientLightens`, `Gradient.GradientFirstRow`: stated for the script's two literal stops; the general forms are `BlendBetween`, `BlendMonotone` and `FormatParse`.
- JSON `null` for `genres` is not modelled, because `', '.join(None)` would raise. `genres` is a sequence.
- `averageScore` is modelled as an integer, which is AniList's type. A float score, printed with Python's float `str()`, is not modelled.
- Negative list indices are not modelled, because `curselection()` never returns one. In Python they would index from the end.
- An `IndexError` raised inside a Tk callback is printed by Tk, and the window keeps running. The model returns it as `Failed(IndexError)`.
