/**
  The two export buttons: the file name derived from the set's title
  (`title.replace(/\s+/g, "-").toLowerCase()` plus an extension) and what
  each download carries. Both buttons are disabled while there are no cards.
 */
module Export {
  import opened Text
  import opened Cards
  import Csv

  /**
    `s.replace(/\s+/g, "-")`: every maximal run of whitespace becomes one
    hyphen. `inRun` says whether the character before `s` was whitespace that
    has already been replaced.
   */
  function Hyphenate(s: string, inRun: bool): string {
    if s == [] then []
    else if IsSpace(s[0]) then (if inRun then [] else "-") + Hyphenate(s[1..], true)
    else [s[0]] + Hyphenate(s[1..], false)
  }

  function Slug(s: string): string {
    Hyphenate(s, false)
  }

  /** The slug holds no whitespace and is never longer than the title. */
  lemma {:induction false} HyphenateNoSpace(s: string, inRun: bool)
    ensures NoSpace(Hyphenate(s, inRun))
    ensures |Hyphenate(s, inRun)| <= |s|
  {
    if s != [] {
      var r := Hyphenate(s[1..], IsSpace(s[0]));
      HyphenateNoSpace(s[1..], IsSpace(s[0]));
      var h := Hyphenate(s, inRun);
      assert forall i :: |h| - |r| <= i < |h| ==> h[i] == r[i - (|h| - |r|)];
    }
  }

  /** A title without whitespace is its own slug. */
  lemma {:induction false} SlugOfNoSpace(s: string)
    requires NoSpace(s)
    ensures Slug(s) == s
  {
    if s != [] {
      SlugOfNoSpace(s[1..]);
      assert s == [s[0]] + s[1..];
    }
  }

  /** Slugging a slug changes nothing. */
  lemma SlugIdempotent(s: string)
    ensures Slug(Slug(s)) == Slug(s)
  {
    HyphenateNoSpace(s, false);
    SlugOfNoSpace(Slug(s));
  }

  lemma {:induction false} HyphenateSpaceRun(w: string, t: string)
    requires AllSpace(w)
    requires t == [] || !IsSpace(t[0])
    ensures Hyphenate(w + t, true) == Hyphenate(t, false)
  {
    if w == [] {
      assert w + t == t;
    } else {
      HyphenateSpaceRun(w[1..], t);
      assert (w + t)[1..] == w[1..] + t;
    }
  }

  /** A run of whitespace followed by a non-space (or the end) turns into a single hyphen. */
  lemma SlugOfSpaceRun(w: string, t: string)
    requires w != [] && AllSpace(w)
    requires t == [] || !IsSpace(t[0])
    ensures Slug(w + t) == "-" + Slug(t)
  {
    HyphenateSpaceRun(w[1..], t);
    assert (w + t)[1..] == w[1..] + t;
  }

  lemma {:induction false} HyphenateAppend(s: string, t: string, inRun: bool)
    requires s != [] && !IsSpace(s[|s| - 1])
    ensures Hyphenate(s + t, inRun) == Hyphenate(s, inRun) + Hyphenate(t, false)
  {
    var s' := s[1..];
    assert (s + t)[1..] == s' + t;
    if s' == [] {
      assert s + t == [s[0]] + t;
    } else {
      HyphenateAppend(s', t, IsSpace(s[0]));
    }
  }

  /**
    Slugging works piece by piece when the first piece does not end in
    whitespace: with `SlugOfSpaceRun` and the one-character case this pins
    `Slug` down completely.
   */
  lemma SlugAppend(s: string, t: string)
    requires s == [] || !IsSpace(s[|s| - 1])
    ensures Slug(s + t) == Slug(s) + Slug(t)
  {
    if s == [] {
      assert s + t == t;
    } else {
      HyphenateAppend(s, t, false);
    }
  }

  datatype Format = CsvFile | JsonFile

  function Extension(f: Format): string {
    match f
    case CsvFile => ".csv"
    case JsonFile => ".json"
  }

  /** The download's file name. */
  function ExportName(title: string, f: Format): (name: string)
    ensures name == Lower(Slug(title)) + Extension(f)
    ensures NoSpace(name)
    ensures forall i :: 0 <= i < |name| ==> !IsUpper(name[i])
    ensures |name| >= |Extension(f)| && name[|name| - |Extension(f)|..] == Extension(f)
  {
    HyphenateNoSpace(title, false);
    var name := Lower(Slug(title)) + Extension(f);
    assert forall i :: |name| - |Extension(f)| <= i < |name| ==> !IsSpace(name[i]) && !IsUpper(name[i]);
    name
  }

  /** A title with neither whitespace nor capitals names its file unchanged, extension added. */
  lemma ExportNameOfPlain(title: string, f: Format)
    requires NoSpace(title)
    requires forall i :: 0 <= i < |title| ==> !IsUpper(title[i])
    ensures ExportName(title, f) == title + Extension(f)
  {
    SlugOfNoSpace(title);
    assert Lower(title) == title;
  }

  /**
    What a download carries. The JSON file holds the object
    `{ title, flashcards }`; it is kept here as that pair, not as its
    pretty-printed text.
   */
  datatype Download =
    | CsvDownload(filename: string, text: string)
    | JsonDownload(filename: string, title: string, flashcards: seq<Flashcard>)

  /** The export buttons: nothing while there are no cards. */
  function Export(title: string, cards: seq<Flashcard>, f: Format): (r: Option<Download>)
    ensures r.Some? <==> cards != []
    ensures r.Some? ==> r.value.filename == ExportName(title, f)
    ensures r.Some? && f == CsvFile ==> r.value.CsvDownload? && Csv.Parse(r.value.text) == Some(Csv.Table(cards))
    ensures r.Some? && f == JsonFile ==> r.value == JsonDownload(ExportName(title, f), title, cards)
  {
    if cards == [] then None
    else
      match f
      case CsvFile =>
        Csv.ToCsvRoundTrip(cards);
        Some(CsvDownload(ExportName(title, f), Csv.ToCsv(cards)))
      case JsonFile => Some(JsonDownload(ExportName(title, f), title, cards))
  }
}
