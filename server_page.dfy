/** app/page.tsx: the server-rendered page. It reads the `page` and `name` query
    parameters, asks the API for one Pokémon by name or for one page of the
    collection, and hands the result to the Pokémon table. */
module ServerPage {
  import opened Gateway
  import Numbers
  import Text
  import PokemonTable

  /** `pageSize`. */
  const PageSize: nat := 20

  /** The page number: the `page` parameter read as a number, or 1 when it is absent
      (modelled for a parameter that is absent or an integer). */
  function PageParam(raw: Option<int>): int
  {
    match raw
    case Some(p) => p
    case None => 1
  }

  /** The name filter: the `name` parameter trimmed and lower-cased, or empty when it is absent. */
  function NameParam(raw: Option<string>): string
  {
    match raw
    case Some(n) => Text.Normalize(n)
    case None => ""
  }

  /** The one request the page sends. */
  datatype Request = ByName(name: string) | ListPage(limit: nat, offset: int)

  /** The props handed to the Pokémon table. */
  datatype TableProps = TableProps(pokemons: seq<Pokemon>, page: int, pageSize: nat, total: nat, filterName: string)

  /** The page renders the table, or the render fails because a request was rejected. */
  datatype PageResult = Rendered(props: TableProps) | RenderFailed

  /** The server page. `byName` is how the by-name request settles and `listing`
      how the collection request settles; only the one for the request the page
      sends is read. */
  method Page(pageParam: Option<int>, nameParam: Option<string>, byName: Fetched<string>, listing: Fetched<Listing>)
    returns (request: Request, result: PageResult)
    ensures var page, name := PageParam(pageParam), NameParam(nameParam);
      && (name != "" ==> request == ByName(name))
      && (name == "" ==> request == ListPage(PageSize, Numbers.Offset(page, PageSize)))
      && (result.Rendered? ==>
            result.props.page == page && result.props.pageSize == PageSize && result.props.filterName == name)
      && (name != "" ==>
            match byName
            case Ok(n) => result == Rendered(TableProps([Pokemon(n, PokemonUrl(n))], page, PageSize, 1, name))
            case NotOk => result == Rendered(TableProps([], page, PageSize, 0, name))
            case Threw => result == RenderFailed)
      && (name == "" ==>
            match listing
            case Ok(l) => result == Rendered(TableProps(l.results, page, PageSize, l.count, name))
            case NotOk => result == Rendered(TableProps([], page, PageSize, 0, name))
            case Threw => result == RenderFailed)
  {
    var page := PageParam(pageParam);
    var name := NameParam(nameParam);
    var pokemons: seq<Pokemon> := [];
    var count: nat := 0;
    if name != "" {
      request := ByName(name);
      match byName {
        case Threw =>
          return request, RenderFailed;
        case NotOk =>
        case Ok(n) =>
          pokemons := [Pokemon(n, PokemonUrl(n))];
          count := 1;
      }
    } else {
      var offset := Numbers.Offset(page, PageSize);
      request := ListPage(PageSize, offset);
      match listing {
        case Threw =>
          return request, RenderFailed;
        case NotOk =>
        case Ok(l) =>
          pokemons := l.results;
          count := l.count;
      }
    }
    result := Rendered(TableProps(pokemons, page, PageSize, count, name));
  }

  /** The pager that the table draws from the page's props. */
  function PagerOf(props: TableProps, search: string): Option<seq<PokemonTable.Cell>>
    requires props.pageSize > 0
  {
    PokemonTable.Pager(props.page, props.pageSize, props.total, props.filterName, search)
  }

  /** With no parameters the page lists the first twenty Pokémon. */
  lemma DefaultsToFirstPage()
    ensures PageParam(None) == 1 && NameParam(None) == ""
    ensures Numbers.Offset(PageParam(None), PageSize) == 0
  {
  }

  /** A name of spaces only is no filter: the page lists the collection. */
  lemma BlankNameLists(raw: string)
    requires forall i :: 0 <= i < |raw| ==> Text.IsWhitespace(raw[i])
    ensures NameParam(Some(raw)) == ""
  {
    Text.BlankNormalizesEmpty(raw);
  }

  /** The name filter is already normalised: normalising it again changes nothing,
      so a link built from it asks for the same name. */
  lemma NameIsNormal(raw: Option<string>)
    ensures Text.Normalize(NameParam(raw)) == NameParam(raw)
  {
    if raw.Some? {
      Text.NormalizeIdempotent(raw.value);
    }
  }

  /** A name lookup hides the pager; a listing of `total` items has a pager of
      `ceil(total / 20)` numbers. */
  lemma ResultFeedsTable(props: TableProps, search: string)
    requires props.pageSize == PageSize
    ensures props.filterName != "" ==> PagerOf(props, search) == None
    ensures props.filterName == "" ==>
      PagerOf(props, search).Some? &&
      |PagerOf(props, search).value| == Numbers.CeilDiv(props.total, PageSize)
  {
    PokemonTable.PagerShape(props.page, props.pageSize, props.total, props.filterName, search);
  }

  /** Asking for the last page of a non-empty listing never starts past its end. */
  lemma LastPageOffsetInside(total: nat)
    requires total > 0
    ensures 0 <= Numbers.Offset(PokemonTable.PageCount(total, PageSize), PageSize) < total
  {
    Numbers.LastPageStartsInside(total, PageSize);
  }
}
