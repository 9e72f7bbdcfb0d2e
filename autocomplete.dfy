/** Completion of a typed project name against the library's names: an
    exact match first, then the first name that starts with the typed word
    ignoring ASCII case, offered for confirmation unless completions are
    always accepted. */
module Autocomplete {
  import opened Wrappers
  import opened Text

  datatype CompletionResult = Found | FoundSimilar(name: string) | Nothing

  /** `entry.to_lowercase().starts_with(word.to_lowercase())`. */
  predicate Completes(word: string, entry: string) {
    StartsWith(Lower(entry), Lower(word))
  }

  /** The position of the first entry that `word` completes to. */
  function FirstCompletion(word: string, list: seq<string>): (r: Option<nat>)
    ensures r.None? <==> forall i :: 0 <= i < |list| ==> !Completes(word, list[i])
    ensures r.Some? ==> r.value < |list| && Completes(word, list[r.value])
    ensures r.Some? ==> forall j :: 0 <= j < r.value ==> !Completes(word, list[j])
  {
    if list == [] then None
    else if Completes(word, list[0]) then Some(0)
    else match FirstCompletion(word, list[1..])
      case None =>
        assert forall i :: 1 <= i < |list| ==> list[i] == list[1..][i - 1];
        None
      case Some(i) => Some(i + 1)
  }

  /** `suggest_completion`. */
  function SuggestCompletion(word: string, list: seq<string>): (r: CompletionResult)
    ensures r == Found <==> word in list
    ensures r == Nothing <==> word !in list && forall i :: 0 <= i < |list| ==> !Completes(word, list[i])
    ensures r.FoundSimilar? ==> exists i ::
              && 0 <= i < |list| && list[i] == r.name && Completes(word, list[i])
              && forall j :: 0 <= j < i ==> !Completes(word, list[j])
  {
    if word in list then Found
    else match FirstCompletion(word, list)
      case Some(i) => FoundSimilar(list[i])
      case None => Nothing
  }

  /** `autocomplete`; `confirmed` is the answer the user would give to
      "Did you mean …?", asked only for an inexact match when completions
      are not always accepted. */
  function Complete(word: string, list: seq<string>, alwaysAccept: bool, confirmed: bool): (r: Option<string>)
    ensures word in list ==> r == Some(word)
  {
    match SuggestCompletion(word, list)
    case Found => Some(word)
    case FoundSimilar(name) => if alwaysAccept || confirmed then Some(name) else None
    case Nothing => None
  }

  /** Whatever `autocomplete` returns is one of the names, and the typed word
      is a prefix of it ignoring ASCII case. */
  lemma CompleteIsSound(word: string, list: seq<string>, alwaysAccept: bool, confirmed: bool)
    requires Complete(word, list, alwaysAccept, confirmed).Some?
    ensures var s := Complete(word, list, alwaysAccept, confirmed).value;
      s in list && StartsWith(Lower(s), Lower(word))
  {
    if word in list {
      assert StartsWith(Lower(word), Lower(word));
    }
  }

  /** On an inexact match the gate decides: accepted without asking when
      always accepted, otherwise exactly when confirmed. */
  lemma CompleteGate(word: string, list: seq<string>, alwaysAccept: bool, confirmed: bool)
    requires SuggestCompletion(word, list).FoundSimilar?
    ensures Complete(word, list, alwaysAccept, confirmed).Some? <==> alwaysAccept || confirmed
    ensures Complete(word, list, alwaysAccept, confirmed).Some? ==>
      Complete(word, list, alwaysAccept, confirmed).value == SuggestCompletion(word, list).name
  {
  }

  /** Nothing that the word completes to means no answer, whatever the gate
      says. */
  lemma CompleteNothing(word: string, list: seq<string>, alwaysAccept: bool, confirmed: bool)
    requires word !in list && forall i :: 0 <= i < |list| ==> !Completes(word, list[i])
    ensures Complete(word, list, alwaysAccept, confirmed) == None
  {
  }

  /** Every name starts with the empty word, so an empty word that is not a
      name itself suggests the first name. */
  lemma EmptyWordSuggestsFirst(list: seq<string>)
    requires list != [] && "" !in list
    ensures SuggestCompletion("", list) == FoundSimilar(list[0])
  {
    assert Completes("", list[0]);
  }

  /** The suggestion keeps the spelling of the list, not of the word. */
  lemma SuggestionKeepsSpelling()
    ensures SuggestCompletion("my", ["Alpha", "MyProject", "myproject"]) == FoundSimilar("MyProject")
  {
    var list := ["Alpha", "MyProject", "myproject"];
    assert Lower("my") == "my";
    assert Lower("Alpha")[0] == 'a';
    assert !Completes("my", list[0]) by {
      assert Lower(list[0])[..2][0] != "my"[0];
    }
    assert Lower("MyProject")[..2] == "my";
    assert Completes("my", list[1]);
    assert FirstCompletion("my", list[1..]) == Some(0);
  }
}
