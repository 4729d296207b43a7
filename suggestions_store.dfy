/** The suggestions store: one list of follow-up questions that the chat
    transport publishes into and the chat screen clears. */
module Suggestions {

  class SuggestionsStore {
    var suggestions: seq<string>

    /** The store starts with no suggestions. */
    constructor ()
      ensures suggestions == []
    {
      suggestions := [];
    }

    /** Replaces the list verbatim. */
    method SetSuggestions(s: seq<string>)
      modifies this
      ensures suggestions == s
    {
      suggestions := s;
    }

    /** Empties the list, whatever it held. */
    method ClearSuggestions()
      modifies this
      ensures suggestions == []
    {
      suggestions := [];
    }
  }

  /** What a client can rely on, read off the store after each pair of
      calls: clearing twice is clearing once, a set followed by a clear
      leaves nothing, and a clear followed by a set leaves exactly the
      list that was set. */
  method SetAndClearInteract(store: SuggestionsStore, s: seq<string>)
    returns (afterTwoClears: seq<string>, afterSetClear: seq<string>, afterClearSet: seq<string>)
    modifies store
    ensures afterTwoClears == [] && afterSetClear == [] && afterClearSet == s
    ensures store.suggestions == s
  {
    store.ClearSuggestions();
    store.ClearSuggestions();
    afterTwoClears := store.suggestions;
    store.SetSuggestions(s);
    store.ClearSuggestions();
    afterSetClear := store.suggestions;
    store.SetSuggestions(s);
    afterClearSet := store.suggestions;
  }
}
