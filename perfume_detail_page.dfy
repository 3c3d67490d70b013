/** The perfume detail page: which of its four views is rendered, the colour
    helpers of its tag and note chips, and the similar-perfume panel. */
module PerfumeDetailPage {
  import opened JsValues
  import opened PerfumeRecord

  // ---------------------------------------------------------------------------
  // View selection
  // ---------------------------------------------------------------------------

  datatype PageView =
    | Spinner
    | ErrorAlert(message: string)
    | NotFound
    | Detail(perfume: Perfume)

  /** `if (error)`: the error state is `null` or a message; an empty message is falsy. */
  predicate ErrorShown(error: Option<string>) {
    error.Some? && Truthy(error.value)
  }

  /** The page's `if` chain over `loading`, `error` and `perfume`. */
  function ChoosePageView(loading: bool, error: Option<string>, perfume: Option<Perfume>): (v: PageView)
    ensures v.Spinner? <==> loading
    ensures v.ErrorAlert? <==> !loading && ErrorShown(error)
    ensures v.ErrorAlert? ==> v.message == error.value
    ensures v.NotFound? <==> !loading && !ErrorShown(error) && perfume.None?
    ensures v.Detail? <==> !loading && !ErrorShown(error) && perfume.Some?
    ensures v.Detail? ==> perfume == Some(v.perfume)
  {
    if loading then Spinner
    else if ErrorShown(error) then ErrorAlert(error.value)
    else if perfume.None? then NotFound
    else Detail(perfume.value)
  }

  /** While loading, neither the error nor the perfume matters; a shown error
      hides the perfume. */
  lemma ViewPrecedence(error: Option<string>, error': Option<string>, perfume: Option<Perfume>, perfume': Option<Perfume>)
    ensures ChoosePageView(true, error, perfume) == ChoosePageView(true, error', perfume')
    ensures ErrorShown(error) ==> ChoosePageView(false, error, perfume) == ChoosePageView(false, error, perfume')
  {
  }

  // ---------------------------------------------------------------------------
  // Tag colours
  // ---------------------------------------------------------------------------

  const DefaultTagColor := "#757575"

  /** `getSeasonColor`: spring, summer, autumn and winter get fixed colours,
      every other label the grey default. */
  function SeasonColor(season: string): (c: string)
    ensures season == "봄" ==> c == "#4caf50"
    ensures season == "여름" ==> c == "#2196f3"
    ensures season == "가을" ==> c == "#ff9800"
    ensures season == "겨울" ==> c == "#9c27b0"
    ensures c == DefaultTagColor <==> season != "봄" && season != "여름" && season != "가을" && season != "겨울"
  {
    if season == "봄" then "#4caf50"
    else if season == "여름" then "#2196f3"
    else if season == "가을" then "#ff9800"
    else if season == "겨울" then "#9c27b0"
    else DefaultTagColor
  }

  /** `getWeatherColor`: clear, cloudy, rain and snow get fixed colours,
      every other label the grey default. */
  function WeatherColor(weather: string): (c: string)
    ensures weather == "맑음" ==> c == "#ffc107"
    ensures weather == "흐림" ==> c == "#607d8b"
    ensures weather == "비" ==> c == "#2196f3"
    ensures weather == "눈" ==> c == "#e3f2fd"
    ensures c == DefaultTagColor <==> weather != "맑음" && weather != "흐림" && weather != "비" && weather != "눈"
  {
    if weather == "맑음" then "#ffc107"
    else if weather == "흐림" then "#607d8b"
    else if weather == "비" then "#2196f3"
    else if weather == "눈" then "#e3f2fd"
    else DefaultTagColor
  }

  // ---------------------------------------------------------------------------
  // Note colour
  // ---------------------------------------------------------------------------

  const NotePalette: seq<string> := [
    "#f44336", "#e91e63", "#9c27b0", "#673ab7",
    "#3f51b5", "#2196f3", "#03a9f4", "#00bcd4",
    "#009688", "#4caf50", "#8bc34a", "#cddc39",
    "#ffeb3b", "#ffc107", "#ff9800", "#ff5722"]

  /** `charCodeAt(0)`: the first UTF-16 code unit of a string starting with `c`;
      a character outside the Basic Multilingual Plane starts with its high surrogate. */
  function FirstCodeUnit(c: char): (u: nat)
    ensures u < 0x1_0000
    ensures (c as int) < 0x1_0000 ==> u == c as int
    ensures (c as int) >= 0x1_0000 ==> 0xD800 <= u < 0xDC00
    ensures (c as int) >= 0x1_0000 ==>
      (u - 0xD800) * 0x400 <= (c as int) - 0x1_0000 < (u - 0xD800 + 1) * 0x400
  {
    if (c as int) < 0x1_0000 then c as int
    else 0xD800 + ((c as int) - 0x1_0000) / 0x400
  }

  /** `getNoteColor`: the palette entry at the first code unit modulo 16; for
      the empty string the source yields `undefined`, so a note must not be empty. */
  function NoteColor(note: string): (c: string)
    requires |note| > 0
    ensures c in NotePalette
  {
    NotePalette[FirstCodeUnit(note[0]) % |NotePalette|]
  }

  /** The colour depends on the first character only; for a character of the
      Basic Multilingual Plane it is the entry at its code point modulo 16. */
  lemma NoteColorByFirstChar(a: string, b: string)
    requires |a| > 0 && |b| > 0
    ensures a[0] == b[0] ==> NoteColor(a) == NoteColor(b)
    ensures (a[0] as int) < 0x1_0000 ==> NoteColor(a) == NotePalette[(a[0] as int) % 16]
  {
  }

  /** All characters outside the Basic Multilingual Plane that share a high
      surrogate get the same colour. */
  lemma AstralNotesShareColor(a: string, b: string)
    requires |a| > 0 && |b| > 0
    requires (a[0] as int) >= 0x1_0000 && (b[0] as int) >= 0x1_0000
    requires ((a[0] as int) - 0x1_0000) / 0x400 == ((b[0] as int) - 0x1_0000) / 0x400
    ensures NoteColor(a) == NoteColor(b)
  {
  }

  // ---------------------------------------------------------------------------
  // Similar perfumes
  // ---------------------------------------------------------------------------

  /** An entry of `similar_perfumes` as the server sends it; the page shows it
      as given and computes no similarity of its own. */
  datatype SimilarPerfume = SimilarPerfume(
    id: int,
    name: string,
    commonNotesCount: int,
    commonNotes: Option<seq<string>>,
    notes: seq<string>)

  /** `similar.common_notes && similar.common_notes.length > 0`. */
  predicate ShowsCommonNotes(s: SimilarPerfume) {
    s.commonNotes.Some? && |s.commonNotes.value| > 0
  }

  datatype SimilarCard = SimilarCard(perfume: SimilarPerfume, commonNotesShown: bool)
  datatype SimilarPanel = NoSimilar | Cards(cards: seq<SimilarCard>)

  /** The panel: the "no similar perfumes" message for an empty list, otherwise
      one card per entry in the server's order, with the common-notes block
      only where common notes exist and are non-empty. */
  function RenderSimilar(similar: seq<SimilarPerfume>): (v: SimilarPanel)
    ensures v.NoSimilar? <==> similar == []
    ensures v.Cards? ==>
      && |v.cards| == |similar|
      && forall k :: 0 <= k < |similar| ==>
           v.cards[k].perfume == similar[k]
           && (v.cards[k].commonNotesShown <==>
                 similar[k].commonNotes.Some? && similar[k].commonNotes.value != [])
  {
    if |similar| == 0 then NoSimilar
    else Cards(seq(|similar|, k requires 0 <= k < |similar| => SimilarCard(similar[k], ShowsCommonNotes(similar[k]))))
  }
}
