/** app/components/PokemonPage.tsx: the client-side search over one Pokémon by
    name, its clear button, and the reset to the baseline list it is given. */
module PokemonPage {
  import opened Gateway
  import Text

  const NotFoundMessage: string := "Not found"
  const FetchErrorMessage: string := "Error fetching data"

  /** The component's props that matter here (`initialPokemons`) and its four
      `useState` cells. */
  datatype PageState = PageState(
    initialPokemons: seq<Pokemon>,
    search: string,
    pokemons: seq<Pokemon>,
    loading: bool,
    error: Option<string>)

  /** The synchronous part of `handleSearch`: the state it leaves and the name it looks up, if any. */
  datatype SearchStart = SearchStart(state: PageState, lookup: Option<string>)

  /** First render with the baseline list passed in as `initialPokemons`. */
  function Mounted(initialPokemons: seq<Pokemon>): PageState
  {
    PageState(initialPokemons, "", initialPokemons, false, None)
  }

  /** The search box's `onChange`. */
  function Typed(s: PageState, text: string): PageState
  {
    s.(search := text)
  }

  /** `handleSearch` up to its `await`. */
  function SearchStarted(s: PageState): SearchStart
  {
    if s.search == "" then SearchStart(s.(pokemons := s.initialPokemons, error := None), None)
    else SearchStart(s.(loading := true, error := None), Some(Text.ToLower(s.search)))
  }

  /** The rest of `handleSearch`, once the lookup has settled. */
  function SearchFinished(s: PageState, reply: Fetched<string>): PageState
  {
    match reply
    case Ok(name) => s.(pokemons := [Pokemon(name, PokemonUrl(name))], loading := false)
    case NotOk => s.(pokemons := [], error := Some(NotFoundMessage), loading := false)
    case Threw => s.(pokemons := [], error := Some(FetchErrorMessage), loading := false)
  }

  /** `handleClear`. */
  function Cleared(s: PageState): PageState
  {
    s.(search := "", pokemons := s.initialPokemons, error := None)
  }

  /** The effect that runs when the `initialPokemons` prop changes. */
  function BaselineChanged(s: PageState, initialPokemons: seq<Pokemon>): PageState
  {
    s.(initialPokemons := initialPokemons, pokemons := initialPokemons)
  }

  /** Whether the table is rendered: nothing is loading and there is no error. */
  predicate TableShown(s: PageState)
  {
    !s.loading && s.error.None?
  }

  /** Searching with an empty box is clearing: the baseline comes back, the error
      goes, `loading` keeps its value and nothing is looked up. */
  lemma EmptySearchIsClear(s: PageState)
    requires s.search == ""
    ensures SearchStarted(s).lookup == None
    ensures SearchStarted(s).state == Cleared(s)
    ensures SearchStarted(s).state.pokemons == s.initialPokemons
    ensures SearchStarted(s).state.loading == s.loading
  {
  }

  /** A non-empty search turns loading on, drops the error, and looks up the
      lower-cased text; the list and the text are untouched until the reply. */
  lemma SearchStartsLookup(s: PageState)
    requires s.search != ""
    ensures var t := SearchStarted(s).state;
      && t.loading && t.error == None
      && t.pokemons == s.pokemons && t.search == s.search
      && SearchStarted(s).lookup == Some(Text.ToLower(s.search))
      && forall i :: 0 <= i < |s.search| ==> !Text.IsUpper(SearchStarted(s).lookup.value[i])
  {
    Text.ToLowerMapsAsciiOnly(s.search);
  }

  /** After a non-empty search settles, loading is off and exactly one of three
      things holds: a one-item list with the returned name and its URL and the
      table shown, an empty list with "Not found", or an empty list with
      "Error fetching data". */
  lemma SearchOutcome(s: PageState, reply: Fetched<string>)
    requires s.search != ""
    ensures var t := SearchFinished(SearchStarted(s).state, reply);
      && !t.loading
      && t.search == s.search
      && t.initialPokemons == s.initialPokemons
      && (TableShown(t) <==> reply.Ok?)
      && (reply.Ok? ==> t.pokemons == [Pokemon(reply.body, PokemonUrl(reply.body))] && t.error == None)
      && (reply.NotOk? ==> t.pokemons == [] && t.error == Some(NotFoundMessage))
      && (reply.Threw? ==> t.pokemons == [] && t.error == Some(FetchErrorMessage))
  {
  }

  /** Clearing restores the baseline and shows the table unless a search is still loading;
      clearing twice is clearing once. */
  lemma ClearRestoresBaseline(s: PageState)
    ensures var t := Cleared(s);
      && t.search == "" && t.pokemons == s.initialPokemons && t.error == None
      && t.loading == s.loading
      && (TableShown(t) <==> !s.loading)
      && Cleared(t) == t
  {
  }

  /** A new baseline replaces the list and leaves the search text, the flag and the error. */
  lemma BaselineReplacesList(s: PageState, p: seq<Pokemon>)
    ensures var t := BaselineChanged(s, p);
      t.pokemons == p && t.search == s.search && t.loading == s.loading && t.error == s.error
  {
  }

  /** Two lookups in flight: whichever reply settles last sets the list, but a
      success does not clear the error an earlier failure left, so the table
      stays hidden behind "Not found". */
  lemma LateSuccessKeepsStaleError(s: PageState, name: string)
    ensures var t := SearchFinished(SearchFinished(s, NotOk), Ok(name));
      t.pokemons == [Pokemon(name, PokemonUrl(name))] && t.error == Some(NotFoundMessage) && !TableShown(t)
  {
  }

  class PokemonPageView {
    var initialPokemons: seq<Pokemon>
    var search: string
    var pokemons: seq<Pokemon>
    var loading: bool
    var error: Option<string>

    function State(): PageState
      reads this
    {
      PageState(initialPokemons, search, pokemons, loading, error)
    }

    constructor (initial: seq<Pokemon>)
      ensures State() == Mounted(initial)
    {
      initialPokemons, search, pokemons, loading, error := initial, "", initial, false, None;
    }

    method SetSearch(text: string)
      modifies this
      ensures State() == Typed(old(State()), text)
    {
      search := text;
    }

    /** `handleSearch` up to its `await`; returns the name it requests, if any. */
    method HandleSearch() returns (lookup: Option<string>)
      modifies this
      ensures SearchStart(State(), lookup) == SearchStarted(old(State()))
    {
      if search == "" {
        pokemons := initialPokemons;
        error := None;
        return None;
      }
      loading := true;
      error := None;
      lookup := Some(Text.ToLower(search));
    }

    /** The rest of `handleSearch`, once the lookup has settled. */
    method SearchSettled(reply: Fetched<string>)
      modifies this
      ensures State() == SearchFinished(old(State()), reply)
    {
      match reply {
        case Ok(name) =>
          pokemons := [Pokemon(name, PokemonUrl(name))];
        case NotOk =>
          pokemons := [];
          error := Some(NotFoundMessage);
        case Threw =>
          pokemons := [];
          error := Some(FetchErrorMessage);
      }
      loading := false;
    }

    method HandleClear()
      modifies this
      ensures State() == Cleared(old(State()))
    {
      search := "";
      pokemons := initialPokemons;
      error := None;
    }

    /** A new `initialPokemons` prop and the effect it triggers. */
    method InitialPokemonsChanged(p: seq<Pokemon>)
      modifies this
      ensures State() == BaselineChanged(old(State()), p)
    {
      initialPokemons := p;
      pokemons := p;
    }
  }
}
