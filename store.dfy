/** The global `useSearchStore` record of app/components/types.ts: four search
    fields and four modal fields, one setter per field, and two group resets. */
module Store {
  import opened Gateway

  datatype StoreState = StoreState(
    search: string,
    pokemons: seq<Pokemon>,
    loading: bool,
    error: Option<string>,
    modalOpen: bool,
    modalData: Option<PokemonDetail>,
    modalTitle: string,
    modalLoading: bool)

  /** The state the store is created with. */
  const Initial: StoreState := StoreState("", [], false, None, false, None, "", false)

  /** The four search fields agree. */
  predicate SameSearchFields(s: StoreState, t: StoreState)
  {
    s.search == t.search && s.pokemons == t.pokemons && s.loading == t.loading && s.error == t.error
  }

  /** The four modal fields agree. */
  predicate SameModalFields(s: StoreState, t: StoreState)
  {
    s.modalOpen == t.modalOpen && s.modalData == t.modalData &&
    s.modalTitle == t.modalTitle && s.modalLoading == t.modalLoading
  }

  /** `reset(initialPokemons)`: search fields back to a baseline. */
  function ResetState(s: StoreState, initialPokemons: seq<Pokemon>): StoreState
  {
    s.(search := "", pokemons := initialPokemons, loading := false, error := None)
  }

  /** `resetModal()`: modal fields back to their initial values. */
  function ResetModalState(s: StoreState): StoreState
  {
    s.(modalOpen := false, modalData := None, modalTitle := "", modalLoading := false)
  }

  /** `reset` sets the search group to the baseline and leaves the modal group alone. */
  lemma ResetTouchesSearchOnly(s: StoreState, p: seq<Pokemon>)
    ensures SameSearchFields(ResetState(s, p), Initial.(pokemons := p))
    ensures SameModalFields(ResetState(s, p), s)
  {
  }

  /** `resetModal` restores the modal group and leaves the search group alone. */
  lemma ResetModalTouchesModalOnly(s: StoreState)
    ensures SameModalFields(ResetModalState(s), Initial)
    ensures SameSearchFields(ResetModalState(s), s)
  {
  }

  /** A second `reset` overrides the first; with the same baseline it changes nothing. */
  lemma ResetIdempotent(s: StoreState, p: seq<Pokemon>, q: seq<Pokemon>)
    ensures ResetState(ResetState(s, q), p) == ResetState(s, p)
    ensures ResetState(ResetState(s, p), p) == ResetState(s, p)
  {
  }

  lemma ResetModalIdempotent(s: StoreState)
    ensures ResetModalState(ResetModalState(s)) == ResetModalState(s)
  {
  }

  /** The two resets touch disjoint fields, so their order does not matter,
      and together with an empty baseline they restore the initial store. */
  lemma ResetsCommute(s: StoreState, p: seq<Pokemon>)
    ensures ResetState(ResetModalState(s), p) == ResetModalState(ResetState(s, p))
    ensures ResetModalState(ResetState(s, [])) == Initial
  {
  }

  class SearchStore {
    var search: string
    var pokemons: seq<Pokemon>
    var loading: bool
    var error: Option<string>
    var modalOpen: bool
    var modalData: Option<PokemonDetail>
    var modalTitle: string
    var modalLoading: bool

    /** The store's eight fields as one record. */
    function State(): StoreState
      reads this
    {
      StoreState(search, pokemons, loading, error, modalOpen, modalData, modalTitle, modalLoading)
    }

    constructor ()
      ensures State() == Initial
    {
      search, pokemons, loading, error := "", [], false, None;
      modalOpen, modalData, modalTitle, modalLoading := false, None, "", false;
    }

    method SetSearch(v: string)
      modifies this
      ensures State() == old(State()).(search := v)
    {
      search := v;
    }

    method SetPokemons(v: seq<Pokemon>)
      modifies this
      ensures State() == old(State()).(pokemons := v)
    {
      pokemons := v;
    }

    method SetLoading(v: bool)
      modifies this
      ensures State() == old(State()).(loading := v)
    {
      loading := v;
    }

    method SetError(v: Option<string>)
      modifies this
      ensures State() == old(State()).(error := v)
    {
      error := v;
    }

    method Reset(initialPokemons: seq<Pokemon>)
      modifies this
      ensures State() == ResetState(old(State()), initialPokemons)
    {
      search, pokemons, loading, error := "", initialPokemons, false, None;
    }

    method SetModalOpen(v: bool)
      modifies this
      ensures State() == old(State()).(modalOpen := v)
    {
      modalOpen := v;
    }

    method SetModalData(v: Option<PokemonDetail>)
      modifies this
      ensures State() == old(State()).(modalData := v)
    {
      modalData := v;
    }

    method SetModalTitle(v: string)
      modifies this
      ensures State() == old(State()).(modalTitle := v)
    {
      modalTitle := v;
    }

    method SetModalLoading(v: bool)
      modifies this
      ensures State() == old(State()).(modalLoading := v)
    {
      modalLoading := v;
    }

    method ResetModal()
      modifies this
      ensures State() == ResetModalState(old(State()))
    {
      modalOpen, modalData, modalTitle, modalLoading := false, None, "", false;
    }
  }
}
