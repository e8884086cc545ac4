/** The boundary to the public Pokémon REST API: the shapes of what it returns
    and the outcome of one `fetch`, handed to the model as a value instead of
    being performed. */
module Gateway {

  datatype Option<T> = None | Some(value: T)

  /** One entry of a collection page: `{name, url}`. */
  datatype Pokemon = Pokemon(name: string, url: string)

  /** The detail record of one Pokémon, with the nested JSON lists flattened
      to the names they carry (`abilities[].ability.name`, `types[].type.name`)
      and `sprites.front_default` kept as `sprite`. */
  datatype PokemonDetail = PokemonDetail(
    id: int,
    abilities: seq<string>,
    baseExperience: int,
    name: string,
    height: int,
    weight: int,
    sprite: string,
    types: seq<string>)

  /** A collection page: `{count, results}`. */
  datatype Listing = Listing(count: nat, results: seq<Pokemon>)

  /** How an awaited `fetch` (and the `res.json()` after it) settles:
      a response with `res.ok` and its decoded body, a response without
      `res.ok`, or a rejected promise (network failure or a body that is not JSON). */
  datatype Fetched<T> = Ok(body: T) | NotOk | Threw

  /** Base URL of the single-Pokémon endpoint. */
  const PokemonEndpoint: string := "https://pokeapi.co/api/v2/pokemon/"

  /** The URL the components build for a Pokémon name. */
  function PokemonUrl(name: string): string
  {
    PokemonEndpoint + name
  }

  /** The name part of a URL built by `PokemonUrl`. */
  function NameInUrl(url: string): Option<string>
  {
    if |url| >= |PokemonEndpoint| && url[..|PokemonEndpoint|] == PokemonEndpoint
    then Some(url[|PokemonEndpoint|..])
    else None
  }

  /** The name can be read back from the URL, so distinct names give distinct URLs. */
  lemma UrlRoundTrip(name: string)
    ensures NameInUrl(PokemonUrl(name)) == Some(name)
  {
    var url := PokemonUrl(name);
    assert url[..|PokemonEndpoint|] == PokemonEndpoint;
    assert url[|PokemonEndpoint|..] == name;
  }

  lemma UrlInjective(a: string, b: string)
    requires PokemonUrl(a) == PokemonUrl(b)
    ensures a == b
  {
    UrlRoundTrip(a);
    UrlRoundTrip(b);
  }
}
