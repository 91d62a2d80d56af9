/** A media entry of an AniList search answer, its display title, the
    `anime_info` dictionary built from it, and the details text shown for it. */
module Media {
  import opened Wrappers
  import opened PyText
  import Numerals

  /** The `title` object of a media entry; either title may be JSON `null`. */
  datatype Titles = Titles(romaji: Option<string>, english: Option<string>)

  /** One entry of `data.Page.media`, with the fields the search query asks for.
      `coverImage` stands for `coverImage.extraLarge`. */
  datatype Anime = Anime(
    id: int,
    title: Titles,
    mediaType: Option<string>,
    format: Option<string>,
    episodes: Option<int>,
    status: Option<string>,
    description: Option<string>,
    averageScore: Option<int>,
    genres: seq<string>,
    coverImage: Option<string>)

  /** Python truthiness of an optional string: `None` and `""` are both false. */
  predicate Truthy(o: Option<string>)
  {
    o.Some? && o.value != ""
  }

  /** The title shown for an entry: the English title when it is truthy, else the
      romaji title, whatever that is (possibly `None` or empty). */
  function DisplayTitle(a: Anime): (t: Option<string>)
    ensures Truthy(a.title.english) ==> t == a.title.english
    ensures !Truthy(a.title.english) ==> t == a.title.romaji
    ensures Truthy(t) <==> Truthy(a.title.english) || Truthy(a.title.romaji)
  {
    if Truthy(a.title.english) then a.title.english else a.title.romaji
  }

  /** The display title as the text `str()` gives it. */
  function TitleText(a: Anime): string
  {
    Str(OfText(DisplayTitle(a)))
  }

  /** The keys of the `anime_info` dictionary. */
  datatype Key = Title | Synopsis | Type | Format | Episodes | Status | Genres | AverageScore | CoverImageUrl

  /** The text of a key followed by a colon and a space: how its line in the details
      text begins. */
  function Heading(k: Key): string
  {
    match k
    case Title => "Title: "
    case Synopsis => "Synopsis: "
    case Type => "Type: "
    case Format => "Format: "
    case Episodes => "Episodes: "
    case Status => "Status: "
    case Genres => "Genres: "
    case AverageScore => "Average Score: "
    case CoverImageUrl => "Cover Image URL: "
  }

  /** The `anime_info` dictionary, as the value it holds under each key: the display
      title and the record's fields, with the genres already joined by ", ". */
  function Info(a: Anime, k: Key): Value
  {
    match k
    case Title => OfText(DisplayTitle(a))
    case Synopsis => OfText(a.description)
    case Type => OfText(a.mediaType)
    case Format => OfText(a.format)
    case Episodes => OfInt(a.episodes)
    case Status => OfText(a.status)
    case Genres => Text(Join(a.genres, ", "))
    case AverageScore => OfInt(a.averageScore)
    case CoverImageUrl => OfText(a.coverImage)
  }

  /** The cover URL the details view downloads: `anime_info['Cover Image URL']`. */
  function CoverUrl(a: Anime): (v: Value)
    ensures v == OfText(a.coverImage)
  {
    Info(a, CoverImageUrl)
  }

  /** The keys shown in the details text, top to bottom; the cover URL is not among them. */
  const DetailOrder: seq<Key> := [Title, Type, Format, Episodes, Status, Genres, AverageScore, Synopsis]

  /** The line of the details text for one key: its heading and `str()` of its value. */
  function Field(a: Anime, k: Key): string
  {
    Heading(k) + Str(Info(a, k))
  }

  /** The lines of the details text, one per key of `DetailOrder`. */
  function DetailsLines(a: Anime): (lines: seq<string>)
    ensures |lines| == |DetailOrder|
  {
    seq(|DetailOrder|, i requires 0 <= i < |DetailOrder| => Field(a, DetailOrder[i]))
  }

  /** Lines each followed by a newline, as a multi-line string literal lays them out. */
  function Terminated(lines: seq<string>): string
  {
    if lines == [] then "" else lines[0] + "\n" + Terminated(lines[1..])
  }

  /** The details text: the triple-quoted f-string, which opens with a newline after the
      quotes, puts each labelled line on its own line and closes with the four spaces
      that indent the closing quotes. */
  function DetailsText(a: Anime): string
  {
    "\n" + Terminated(DetailsLines(a)) + "    "
  }

  /** The first line of the details text is the display title after its heading. */
  lemma TitleLine(a: Anime)
    ensures DetailsLines(a)[0] == "Title: " + TitleText(a)
  {
    assert DetailsLines(a)[0] == Field(a, Title);
  }

  /** Newline-terminated lines are the lines joined by newlines plus a final newline. */
  lemma {:induction false} TerminatedIsJoin(lines: seq<string>)
    requires lines != []
    ensures Terminated(lines) == Join(lines, "\n") + "\n"
  {
    if |lines| > 1 {
      TerminatedIsJoin(lines[1..]);
    }
  }

  /** The details text is exactly the eight labelled lines, joined by newlines, between a
      leading newline and a trailing newline plus indent. */
  lemma DetailsLayout(a: Anime)
    ensures DetailsText(a) == "\n" + Join(DetailsLines(a), "\n") + "\n    "
  {
    TerminatedIsJoin(DetailsLines(a));
  }

  /** What each text line of the details says about the record: the display title
      (`None` when it is absent), the three category fields, the genres joined by ", "
      in their original order, and the synopsis. */
  lemma DetailsTextFields(a: Anime)
    ensures DetailsLines(a)[0] == "Title: " + (if DisplayTitle(a).Some? then DisplayTitle(a).value else "None")
    ensures DetailsLines(a)[1] == "Type: " + Str(OfText(a.mediaType))
    ensures DetailsLines(a)[2] == "Format: " + Str(OfText(a.format))
    ensures DetailsLines(a)[4] == "Status: " + Str(OfText(a.status))
    ensures DetailsLines(a)[5] == "Genres: " + Join(a.genres, ", ")
    ensures DetailsLines(a)[7] == "Synopsis: " + (if a.description.Some? then a.description.value else "None")
  {
    var l := DetailsLines(a);
    assert l[0] == Field(a, Title);
    assert l[1] == Field(a, Type);
    assert l[2] == Field(a, Format);
    assert l[4] == Field(a, Status);
    assert l[5] == Field(a, Genres);
    assert l[7] == Field(a, Synopsis);
  }

  /** The episode count and the average score are printed as `str()` prints an integer,
      or as `None` when absent. */
  lemma DetailsNumberFields(a: Anime)
    ensures DetailsLines(a)[3] == "Episodes: " + (if a.episodes.Some? then Numerals.IntText(a.episodes.value) else "None")
    ensures DetailsLines(a)[6] == "Average Score: " + (if a.averageScore.Some? then Numerals.IntText(a.averageScore.value) else "None")
  {
    var l := DetailsLines(a);
    assert l[3] == Field(a, Episodes);
    assert l[6] == Field(a, AverageScore);
  }

  /** The cover URL is collected into `anime_info` but takes no part in the text. */
  lemma DetailsIgnoreCover(a: Anime, url: Option<string>)
    ensures DetailsText(a.(coverImage := url)) == DetailsText(a)
  {
    var b := a.(coverImage := url);
    forall i | 0 <= i < |DetailOrder| ensures DetailsLines(b)[i] == DetailsLines(a)[i] {
      assert DetailOrder[i] != CoverImageUrl;
    }
    assert DetailsLines(b) == DetailsLines(a);
  }

  /** An empty genre list gives an empty Genres value. */
  lemma NoGenres(a: Anime)
    requires a.genres == []
    ensures DetailsLines(a)[5] == "Genres: "
  {
  }
}
