/**
 * The editor for the user's own word categories (ui/CustomCategoryView.kt):
 * a name field, a word field with an add button, the list of words with a
 * remove button each, save and clear buttons, and a confirmation dialog for
 * deleting a saved category. The screen reports its decisions to the
 * view-model through callbacks, modelled as returned events.
 */
module CustomCategoryEditor {
  import opened Wrappers
  import opened Kotlin
  import opened Categories
  import Lists

  /** The callbacks the editor calls: `onSaveNew`, `onUpdateCategory`, `onDeleteCategory`. */
  datatype EditorEvent =
    | SaveNew(category: CustomCategory)
    | UpdateCategory(previous: CustomCategory, updated: CustomCategory)
    | DeleteCategory(category: CustomCategory)

  /**
   * A word list as the add button builds it: non-empty entries with no
   * whitespace at either end (so `trim` leaves them alone), each listed once.
   */
  predicate WordsClean(words: seq<string>) {
    && (forall i :: 0 <= i < |words| ==> words[i] != [] && IsTrimmed(words[i]))
    && (forall i, j :: 0 <= i < j < |words| ==> words[i] != words[j])
  }

  /** The add button is enabled when the typed word is not blank. */
  predicate AddEnabled(currentWord: string) {
    Trim(currentWord) != []
  }

  /**
   * The word list after the add button (or the keyboard's next key): the
   * trimmed input is appended unless it is empty or already listed.
   */
  function AddedWords(words: seq<string>, currentWord: string): (r: seq<string>)
    ensures var cleaned := Trim(currentWord);
      && (cleaned != [] && cleaned !in words ==> r == words + [cleaned])
      && (cleaned == [] || cleaned in words ==> r == words)
  {
    var cleaned := Trim(currentWord);
    if cleaned != [] && cleaned !in words then words + [cleaned] else words
  }

  /** A disabled add button would not have added anything either. */
  lemma DisabledAddChangesNothing(words: seq<string>, currentWord: string)
    requires !AddEnabled(currentWord)
    ensures AddedWords(words, currentWord) == words
  {
  }

  /** Adding keeps a clean list clean. */
  lemma AddKeepsWordsClean(words: seq<string>, currentWord: string)
    requires WordsClean(words)
    ensures WordsClean(AddedWords(words, currentWord))
  {
    var cleaned := Trim(currentWord);
    if cleaned != [] && cleaned !in words {
      var r := words + [cleaned];
      assert forall i :: 0 <= i < |words| ==> r[i] == words[i];
      assert r[|words|] == cleaned;
    }
  }

  /** Removing keeps a clean list clean. */
  lemma {:induction false} RemoveKeepsWordsClean(words: seq<string>, word: string)
    requires WordsClean(words)
    ensures WordsClean(Lists.RemoveAll(words, word))
  {
    if words != [] {
      RemoveKeepsWordsClean(words[1..], word);
      var rest := Lists.RemoveAll(words[1..], word);
      if words[0] != word {
        assert Lists.RemoveAll(words, word) == [words[0]] + rest;
        assert words[0] !in words[1..];
        Lists.RemoveAllMembers(words[1..], word, words[0]);
      }
    }
  }

  /** One edit of the word list: the add button with the typed input, or a word's remove button. */
  datatype WordEdit = Add(input: string) | Remove(word: string)

  function Edited(words: seq<string>, edit: WordEdit): seq<string> {
    match edit
    case Add(input) => AddedWords(words, input)
    case Remove(word) => Lists.RemoveAll(words, word)
  }

  function EditedAll(words: seq<string>, edits: seq<WordEdit>): seq<string>
    decreases |edits|
  {
    if edits == [] then words else EditedAll(Edited(words, edits[0]), edits[1..])
  }

  /**
   * Starting from a clean list (the empty list of a new category among
   * them), any sequence of adds and removes leaves every word trimmed,
   * non-empty and listed once.
   */
  lemma {:induction false} EditsKeepWordsClean(words: seq<string>, edits: seq<WordEdit>)
    requires WordsClean(words)
    ensures WordsClean(EditedAll(words, edits))
    decreases |edits|
  {
    if edits != [] {
      if edits[0].Add? {
        AddKeepsWordsClean(words, edits[0].input);
      } else {
        RemoveKeepsWordsClean(words, edits[0].word);
      }
      EditsKeepWordsClean(Edited(words, edits[0]), edits[1..]);
    }
  }

  /** The save button is enabled when the trimmed name is not empty and there is a word. */
  predicate SaveEnabled(categoryName: string, words: seq<string>) {
    Trim(categoryName) != [] && words != []
  }

  /**
   * The callback the save button fires: a new category, or the edited one
   * replaced; nothing when saving is not enabled.
   */
  function SaveEvent(categoryName: string, words: seq<string>, editingCategory: Option<CustomCategory>): (r: Option<EditorEvent>)
    ensures r.Some? <==> SaveEnabled(categoryName, words)
    ensures r.Some? && editingCategory.None? ==> r.value == SaveNew(Custom(Trim(categoryName), words))
    ensures r.Some? && editingCategory.Some? ==> r.value == UpdateCategory(editingCategory.value, Custom(Trim(categoryName), words))
  {
    var name := Trim(categoryName);
    if name != [] && words != [] then
      var newCategory := Custom(name, words);
      if editingCategory.None? then Some(SaveNew(newCategory))
      else Some(UpdateCategory(editingCategory.value, newCategory))
    else None
  }

  /** A saved category's name has no surrounding blanks, whatever was typed. */
  lemma SavedNameIsTrimmed(categoryName: string, words: seq<string>, editingCategory: Option<CustomCategory>)
    requires SaveEnabled(categoryName, words)
    ensures var e := SaveEvent(categoryName, words, editingCategory).value;
      var saved := if e.SaveNew? then e.category else e.updated;
      && saved.displayName != [] && Trim(saved.displayName) == saved.displayName
      && !IsBlank(saved.displayName)
  {
    TrimIdempotent(categoryName);
    BlankIffTrimEmpty(Trim(categoryName));
  }

  /** The editor's `remember`ed state. */
  class Editor {
    var categoryName: string
    var currentWord: string
    var words: seq<string>
    var editingCategory: Option<CustomCategory>
    var categoryToDelete: Option<CustomCategory>

    /** A blank editor for a new category, and no deletion pending. */
    constructor ()
      ensures categoryName == "" && currentWord == "" && words == []
      ensures editingCategory == None && categoryToDelete == None
      ensures WordsClean(words)
    {
      categoryName := "";
      currentWord := "";
      words := [];
      editingCategory := None;
      categoryToDelete := None;
    }

    /** The clear button is shown when something is being edited or typed in. */
    predicate ClearShown()
      reads this
    {
      editingCategory.Some? || categoryName != [] || words != []
    }

    /** `startEditing`: load the category's name and words, empty the word field. */
    method StartEditing(category: CustomCategory)
      modifies this
      ensures editingCategory == Some(category) && categoryName == category.displayName
      ensures words == category.words && currentWord == ""
      ensures categoryToDelete == old(categoryToDelete)
    {
      editingCategory := Some(category);
      categoryName := category.displayName;
      words := category.words;
      currentWord := "";
    }

    /** `clearEditor`: back to a blank editor for a new category. */
    method ClearEditor()
      modifies this
      ensures editingCategory == None && categoryName == "" && words == [] && currentWord == ""
      ensures !ClearShown() && WordsClean(words)
      ensures categoryToDelete == old(categoryToDelete)
    {
      editingCategory := None;
      categoryName := "";
      words := [];
      currentWord := "";
    }

    method SetCategoryName(name: string)
      modifies this
      ensures categoryName == name
      ensures currentWord == old(currentWord) && words == old(words)
      ensures editingCategory == old(editingCategory) && categoryToDelete == old(categoryToDelete)
    {
      categoryName := name;
    }

    method SetCurrentWord(word: string)
      modifies this
      ensures currentWord == word
      ensures categoryName == old(categoryName) && words == old(words)
      ensures editingCategory == old(editingCategory) && categoryToDelete == old(categoryToDelete)
    {
      currentWord := word;
    }

    /**
     * The add button and the keyboard's next key: append the trimmed word if
     * it is new and not empty, and then empty the field; otherwise nothing.
     */
    method AddWord()
      modifies this
      ensures words == AddedWords(old(words), old(currentWord))
      ensures currentWord == if words != old(words) then "" else old(currentWord)
      ensures WordsClean(old(words)) ==> WordsClean(words)
      ensures categoryName == old(categoryName)
      ensures editingCategory == old(editingCategory) && categoryToDelete == old(categoryToDelete)
    {
      var cleaned := Trim(currentWord);
      if cleaned != [] && cleaned !in words {
        words := words + [cleaned];
        currentWord := "";
      }
      if WordsClean(old(words)) {
        AddKeepsWordsClean(old(words), old(currentWord));
      }
    }

    /** A word's remove button: every copy of the word goes, the rest keep their order. */
    method RemoveWord(word: string)
      modifies this
      ensures words == Lists.RemoveAll(old(words), word)
      ensures word !in words
      ensures WordsClean(old(words)) ==> WordsClean(words)
      ensures categoryName == old(categoryName) && currentWord == old(currentWord)
      ensures editingCategory == old(editingCategory) && categoryToDelete == old(categoryToDelete)
    {
      words := Lists.RemoveAll(words, word);
      if WordsClean(old(words)) {
        RemoveKeepsWordsClean(old(words), word);
      }
    }

    /**
     * The save button: with a non-blank name and at least one word, report
     * the new or updated category and clear the editor; otherwise nothing.
     */
    method Save() returns (event: Option<EditorEvent>)
      modifies this
      ensures event == SaveEvent(old(categoryName), old(words), old(editingCategory))
      ensures event.Some? ==> editingCategory == None && categoryName == "" && words == [] && currentWord == ""
      ensures event.None? ==>
        && categoryName == old(categoryName) && currentWord == old(currentWord)
        && words == old(words) && editingCategory == old(editingCategory)
      ensures categoryToDelete == old(categoryToDelete)
    {
      var name := Trim(categoryName);
      if name != [] && words != [] {
        var newCategory := Custom(name, words);
        if editingCategory.None? {
          event := Some(SaveNew(newCategory));
        } else {
          event := Some(UpdateCategory(editingCategory.value, newCategory));
        }
        ClearEditor();
      } else {
        event := None;
      }
    }

    /** A category card's delete button: ask for confirmation first. */
    method RequestDelete(category: CustomCategory)
      modifies this
      ensures categoryToDelete == Some(category)
      ensures categoryName == old(categoryName) && currentWord == old(currentWord)
      ensures words == old(words) && editingCategory == old(editingCategory)
    {
      categoryToDelete := Some(category);
    }

    /** The dialog's delete button, shown only while a deletion is pending: delete that category, once. */
    method ConfirmDelete() returns (event: EditorEvent)
      requires categoryToDelete.Some?
      modifies this
      ensures event == DeleteCategory(old(categoryToDelete).value)
      ensures categoryToDelete == None
      ensures categoryName == old(categoryName) && currentWord == old(currentWord)
      ensures words == old(words) && editingCategory == old(editingCategory)
    {
      event := DeleteCategory(categoryToDelete.value);
      categoryToDelete := None;
    }

    /** The dialog's cancel button or a dismissal: nothing is deleted. */
    method DismissDelete()
      modifies this
      ensures categoryToDelete == None
      ensures categoryName == old(categoryName) && currentWord == old(currentWord)
      ensures words == old(words) && editingCategory == old(editingCategory)
    {
      categoryToDelete := None;
    }
  }
}
