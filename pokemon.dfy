/**
 * The Pokémon review page: the fetched Pokémon filtered by the search box, then
 * sorted on a copy by name or by creation date, each listed with the rows of
 * `pokemon_reviews` whose `pokemon_id` is its name.
 */
module PokemonReview {
  import opened Wrappers
  import opened Text
  import Seqs

  /** An entry of the fetched list: its name, and its creation time as a number. */
  datatype Pokemon = Pokemon(name: string, createdAt: int)

  /** A row of the `pokemon_reviews` table. */
  datatype Review = Review(id: int, pokemonId: string, review: string)

  /** The row `addReview` inserts. */
  datatype NewReview = NewReview(pokemonId: string, review: string)

  /** The listed Pokémon: those whose lower-cased name contains the lower-cased search query. */
  function FilteredPokemon(data: seq<Pokemon>, query: string): (r: seq<Pokemon>)
    ensures forall p :: p in r <==> p in data && NameMatches(p.name, query)
  {
    Seqs.Filter(data, (p: Pokemon) => NameMatches(p.name, query))
  }

  /** The filtered list keeps the fetched order; an empty query keeps every entry. */
  lemma FilteredPokemonInOrder(data: seq<Pokemon>, query: string)
    ensures Seqs.IsSubsequence(FilteredPokemon(data, query), data)
    ensures query == "" ==> FilteredPokemon(data, query) == data
  {
    Seqs.FilterIsSubsequence(data, (p: Pokemon) => NameMatches(p.name, query));
    if query == "" {
      forall p | p in data ensures NameMatches(p.name, query) {
        EmptyQueryMatches(p.name);
      }
      Seqs.FilterKeepsAll(data, (p: Pokemon) => NameMatches(p.name, query));
    }
  }

  /** The comparator handed to the sort: the collation of the names when sorting by name
      (`collate` stands for the locale comparison), otherwise the difference of the creation times. */
  function Compare(sortBy: string, collate: (string, string) -> int): (r: (Pokemon, Pokemon) -> int)
    ensures sortBy == "name" ==> forall a, b :: r(a, b) == collate(a.name, b.name)
    ensures sortBy != "name" ==> forall a, b :: r(a, b) <= 0 <==> a.createdAt <= b.createdAt
    ensures sortBy != "name" ==> forall a, b :: r(a, b) == -r(b, a)
  {
    (a: Pokemon, b: Pokemon) => if sortBy == "name" then collate(a.name, b.name) else a.createdAt - b.createdAt
  }

  /** The filtered list, copied and sorted with `Compare`: a rearrangement of the filtered list. */
  function SortedPokemon(filtered: seq<Pokemon>, sortBy: string, collate: (string, string) -> int): (r: seq<Pokemon>)
    ensures multiset(r) == multiset(filtered)
    ensures |r| == |filtered|
  {
    Seqs.Sort(filtered, Compare(sortBy, collate))
  }

  /** The comparator is consistent when the collation is. */
  lemma CompareConsistent(sortBy: string, collate: (string, string) -> int)
    requires sortBy == "name" ==> Seqs.Consistent(collate)
    ensures Seqs.Consistent(Compare(sortBy, collate))
  {
    var cmp := Compare(sortBy, collate);
    if sortBy == "name" {
      forall a, b ensures cmp(a, b) <= 0 || cmp(b, a) <= 0 {
        assert collate(a.name, b.name) <= 0 || collate(b.name, a.name) <= 0;
      }
      forall a, b, c | cmp(a, b) <= 0 && cmp(b, c) <= 0 ensures cmp(a, c) <= 0 {
        assert collate(a.name, b.name) <= 0 && collate(b.name, c.name) <= 0;
      }
    }
  }

  /** The listed order: by the collation of the names when `sortBy` is `'name'`, otherwise by
      increasing creation time. */
  lemma SortedPokemonOrdered(filtered: seq<Pokemon>, sortBy: string, collate: (string, string) -> int)
    requires sortBy == "name" ==> Seqs.Consistent(collate)
    ensures var r := SortedPokemon(filtered, sortBy, collate);
      && (sortBy == "name" ==> forall i, j :: 0 <= i < j < |r| ==> collate(r[i].name, r[j].name) <= 0)
      && (sortBy != "name" ==> forall i, j :: 0 <= i < j < |r| ==> r[i].createdAt <= r[j].createdAt)
  {
    var cmp := Compare(sortBy, collate);
    CompareConsistent(sortBy, collate);
    Seqs.SortSorted(filtered, cmp);
    var r := SortedPokemon(filtered, sortBy, collate);
    assert forall i, j :: 0 <= i < j < |r| ==> cmp(r[i], r[j]) <= 0;
  }

  /** The page lists exactly the matching Pokémon, each as often as it was fetched. */
  lemma ListedAreTheMatches(data: seq<Pokemon>, query: string, sortBy: string, collate: (string, string) -> int)
    ensures var r := SortedPokemon(FilteredPokemon(data, query), sortBy, collate);
      forall p :: multiset(r)[p] == if NameMatches(p.name, query) then multiset(data)[p] else 0
  {
    var keep := (p: Pokemon) => NameMatches(p.name, query);
    var f := FilteredPokemon(data, query);
    assert f == Seqs.Filter(data, keep);
    var r := SortedPokemon(f, sortBy, collate);
    forall p: Pokemon ensures multiset(r)[p] == if NameMatches(p.name, query) then multiset(data)[p] else 0 {
      Seqs.FilterCount(data, keep, p);
    }
  }

  /** Entries without a creation time compare as equal (the difference of two invalid dates is
      not a number, which the sort treats as a tie), so sorting by date keeps the filtered order. */
  lemma UndatedKeepFilteredOrder(filtered: seq<Pokemon>, sortBy: string, collate: (string, string) -> int)
    requires sortBy != "name"
    requires forall i, j :: 0 <= i < |filtered| && 0 <= j < |filtered| ==> filtered[i].createdAt == filtered[j].createdAt
    ensures SortedPokemon(filtered, sortBy, collate) == filtered
  {
    Seqs.SortAllTiedKeepsOrder(filtered, Compare(sortBy, collate));
  }

  /** The reviews listed under a Pokémon: those whose `pokemon_id` is its name, in fetched order. */
  function ReviewsFor(reviews: seq<Review>, name: string): (r: seq<Review>)
    ensures forall x :: x in r <==> x in reviews && x.pokemonId == name
  {
    Seqs.Filter(reviews, (x: Review) => x.pokemonId == name)
  }

  /** A review stored by `addReview(pokemon.name)` and fetched back is listed under that Pokémon,
      and under no Pokémon with another name; the reviews under a Pokémon keep the fetched order. */
  lemma StoredReviewListedUnderItsPokemon(reviews: seq<Review>, x: Review, p: Pokemon, q: Pokemon)
    requires x in reviews && x.pokemonId == p.name
    ensures x in ReviewsFor(reviews, p.name)
    ensures q.name != p.name ==> x !in ReviewsFor(reviews, q.name)
    ensures Seqs.IsSubsequence(ReviewsFor(reviews, p.name), reviews)
  {
    Seqs.FilterIsSubsequence(reviews, (y: Review) => y.pokemonId == p.name);
  }

  /** The state `addReview` reads and writes. */
  class PokemonReviewApp {
    var reviewText: string
    var reviews: seq<Review>

    constructor ()
      ensures reviewText == "" && reviews == []
    {
      reviewText, reviews := "", [];
    }

    method HandleReviewChange(text: string)
      modifies this`reviewText
      ensures reviewText == text
    {
      reviewText := text;
    }

    /** `addReview(pokemon.name)`: an empty review is rejected before anything is sent; the row
        carries the Pokémon's name as `pokemon_id`; the box is cleared only after a successful insert. */
    method AddReview(pokemonName: string, insertOk: bool) returns (request: Option<NewReview>, refetch: bool)
      modifies this`reviewText
      ensures old(reviewText) == "" ==> request == None && !refetch && reviewText == ""
      ensures old(reviewText) != "" ==> request == Some(NewReview(pokemonName, old(reviewText))) && refetch == insertOk
      ensures reviewText == if request.Some? && insertOk then "" else old(reviewText)
    {
      if reviewText == "" {
        return None, false;
      }
      request := Some(NewReview(pokemonName, reviewText));
      refetch := insertOk;
      if insertOk {
        reviewText := "";
      }
    }

    /** `fetchReviews` completing: the rows received replace the list, which is kept on error. */
    method FetchReviewsDone(fetched: Option<seq<Review>>)
      modifies this`reviews
      ensures reviews == if fetched.Some? then fetched.value else old(reviews)
    {
      if fetched.Some? {
        reviews := fetched.value;
      }
    }
  }
}
