/**
 * Word categories and the word repository of the `com.tlajja` app variant
 * (data/WordRepository.kt). Reading and decoding an asset file is not
 * modelled: the assets are given as a map from file name to what decoding
 * that file produced.
 */
module Categories {
  import opened Wrappers

  /** Kotlin's sealed class `Category`: a bundled word file, or a list the user made. */
  datatype Category =
    | Predefined(fileName: string, displayName: string)
    | Custom(displayName: string, words: seq<string>)

  /** Kotlin's `Category.Custom`. */
  type CustomCategory = c: Category | c.Custom? witness Custom("", [])

  /** `Category.predefinedCategories`, in display order. */
  const PredefinedCategories: seq<Category> := [
    Predefined("animals.json", "Gyvūnai"),
    Predefined("sports.json", "Sportas"),
    Predefined("foods.json", "Maistas"),
    Predefined("people.json", "Žmonės"),
    Predefined("peopleLT.json", "Žmonės (tik lietuviai)"),
    Predefined("objects.json", "Daiktai"),
    Predefined("movies.json", "Filmai/Serialai"),
    Predefined("animations.json", "Animaciniai filmai/serialai"),
    Predefined("places.json", "Vietos"),
    Predefined("videogames.json", "Vaizdo Žaidimai"),
    Predefined("professions.json", "Profesijos"),
    Predefined("actions.json", "Veiksmai")
  ]

  /** Twelve bundled categories, each reading its own file. */
  lemma PredefinedCategoriesDistinct()
    ensures |PredefinedCategories| == 12
    ensures forall i :: 0 <= i < 12 ==> PredefinedCategories[i].Predefined?
    ensures forall i, j :: 0 <= i < j < 12 ==> PredefinedCategories[i].fileName != PredefinedCategories[j].fileName
  {
  }

  /** What opening and decoding an asset file gives: its word list, or a failure. */
  datatype Asset = Decoded(words: seq<string>) | Undecodable

  /** The app's assets by file name; a missing name is a file that cannot be opened. */
  type Assets = map<string, Asset>

  /**
   * `loadWordsFromCategory`: a custom category's own words; a bundled
   * category's decoded words, or no words when the file is missing or
   * cannot be decoded (the exception is caught).
   */
  function LoadWordsFromCategory(assets: Assets, c: Category): (r: seq<string>)
    ensures c.Custom? ==> r == c.words
    ensures c.Predefined? && c.fileName in assets && assets[c.fileName].Decoded? ==> r == assets[c.fileName].words
    ensures c.Predefined? && (c.fileName !in assets || assets[c.fileName].Undecodable?) ==> r == []
  {
    match c
    case Custom(_, words) => words
    case Predefined(fileName, _) =>
      if fileName in assets && assets[fileName].Decoded? then assets[fileName].words else []
  }

  /** `flatMap { loadWordsFromCategory(it) }`. */
  function LoadAll(assets: Assets, cats: seq<Category>): seq<string> {
    if cats == [] then []
    else LoadWordsFromCategory(assets, cats[0]) + LoadAll(assets, cats[1..])
  }

  /** A word is loaded exactly when one of the categories yields it. */
  lemma {:induction false} LoadAllMembers(assets: Assets, cats: seq<Category>, w: string)
    ensures w in LoadAll(assets, cats) <==> exists i :: 0 <= i < |cats| && w in LoadWordsFromCategory(assets, cats[i])
  {
    if cats != [] {
      LoadAllMembers(assets, cats[1..], w);
      assert forall i :: 1 <= i < |cats| ==> cats[i] == cats[1..][i - 1];
      if w in LoadAll(assets, cats[1..]) {
        var i :| 0 <= i < |cats[1..]| && w in LoadWordsFromCategory(assets, cats[1..][i]);
        assert w in LoadWordsFromCategory(assets, cats[i + 1]);
      }
    }
  }

  /** Loading a list with a known first category: its words, then the rest's. */
  lemma LoadAllCons(assets: Assets, c: Category, t: seq<Category>)
    ensures LoadAll(assets, [c] + t) == LoadWordsFromCategory(assets, c) + LoadAll(assets, t)
  {
    assert ([c] + t)[1..] == t;
  }

  /** Loading two lists of categories one after the other loads their concatenation. */
  lemma {:induction false} LoadAllAppend(assets: Assets, a: seq<Category>, b: seq<Category>)
    ensures LoadAll(assets, a + b) == LoadAll(assets, a) + LoadAll(assets, b)
  {
    if a == [] {
      assert a + b == b;
    } else {
      var c, tail := a[0], a[1..];
      assert a + b == [c] + (tail + b);
      LoadAllCons(assets, c, tail + b);
      LoadAllAppend(assets, tail, b);
      var first, x, y := LoadWordsFromCategory(assets, c), LoadAll(assets, tail), LoadAll(assets, b);
      assert first + (x + y) == (first + x) + y;
    }
  }

  /** The words of the categories come out category by category, in list order. */
  lemma LoadAllInOrder(assets: Assets, cats: seq<Category>, i: nat)
    requires i < |cats|
    ensures LoadAll(assets, cats) == LoadAll(assets, cats[..i]) + LoadWordsFromCategory(assets, cats[i]) + LoadAll(assets, cats[i + 1..])
  {
    assert cats == cats[..i] + ([cats[i]] + cats[i + 1..]);
    LoadAllAppend(assets, cats[..i], [cats[i]] + cats[i + 1..]);
    LoadAllCons(assets, cats[i], cats[i + 1..]);
  }

  /** `loadAllWords()`: the words of every bundled category. */
  function LoadAllWords(assets: Assets): seq<string> {
    LoadAll(assets, PredefinedCategories)
  }

  /** The pool words are drawn from: the chosen category's, or all bundled words when none is chosen. */
  function Pool(assets: Assets, category: Option<Category>): seq<string> {
    match category
    case Some(c) => LoadWordsFromCategory(assets, c)
    case None => LoadAllWords(assets)
  }

  /** `getRandomWord(category)`: some word of the pool, or None (Kotlin null) when the pool is empty. */
  method GetRandomWord(assets: Assets, category: Option<Category>) returns (w: Option<string>)
    ensures w.None? <==> Pool(assets, category) == []
    ensures w.Some? ==> w.value in Pool(assets, category)
  {
    var pool := Pool(assets, category);
    if pool == [] {
      w := None;
    } else {
      assert pool[0] in pool;
      var x :| x in pool;
      w := Some(x);
    }
  }
}
