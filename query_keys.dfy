/**
 * The cache keys of the product queries and which of them each product
 * mutation marks stale. A key is an array; invalidating with a key marks
 * every cached query whose key starts with it.
 */
module QueryKeys {
  import opened Wrappers

  /** One element of a key: a name, or the listing's parameters (absent when
      the list is read without any). */
  datatype KeyPart = Name(name: string) | ListParams(params: Option<map<string, string>>)

  type Key = seq<KeyPart>

  const All: Key := [Name("products")]

  function Lists(): Key {
    All + [Name("list")]
  }

  function List(params: Option<map<string, string>>): Key {
    Lists() + [ListParams(params)]
  }

  function Details(): Key {
    All + [Name("detail")]
  }

  function Detail(id: string): Key {
    Details() + [Name(id)]
  }

  predicate IsPrefix(filter: Key, key: Key) {
    |filter| <= |key| && key[..|filter|] == filter
  }

  datatype Mutation = Create | Update(id: string) | Delete(id: string)

  /** The keys each mutation invalidates once it succeeds. */
  function Invalidates(m: Mutation): seq<Key> {
    match m
    case Create => [Lists()]
    case Update(id) => [Lists(), Detail(id)]
    case Delete(_) => [Lists()]
  }

  /** A cached query the mutation marks stale. */
  predicate Stale(m: Mutation, key: Key) {
    exists i :: 0 <= i < |Invalidates(m)| && IsPrefix(Invalidates(m)[i], key)
  }

  /** Every product key starts with `All`. */
  lemma AllIsRoot(params: Option<map<string, string>>, id: string)
    ensures IsPrefix(All, Lists()) && IsPrefix(All, List(params))
    ensures IsPrefix(All, Details()) && IsPrefix(All, Detail(id))
  {
  }

  /** Every listing, whatever its parameters, sits under `lists()`, and no
      single-product key does. */
  lemma ListsCoverListings(params: Option<map<string, string>>, id: string)
    ensures IsPrefix(Lists(), List(params))
    ensures !IsPrefix(Lists(), Detail(id))
  {
    assert Detail(id)[1] == Name("detail");
  }

  /** A product key is stale after a mutation exactly as the mutation's
      kind says: every listing after any of them, one product's own key
      only after its update. A deleted product's cached query stays. */
  lemma StaleAfterMutation(m: Mutation, params: Option<map<string, string>>, id: string)
    ensures Stale(m, List(params))
    ensures Stale(m, Detail(id)) <==> m.Update? && m.id == id
  {
    ListsCoverListings(params, id);
    assert IsPrefix(Invalidates(m)[0], List(params));
    if m.Update? && m.id == id {
      assert IsPrefix(Invalidates(m)[1], Detail(id));
    }
    if m.Update? && m.id != id {
      assert Detail(m.id)[2] != Detail(id)[2];
      assert !IsPrefix(Detail(m.id), Detail(id));
    }
  }
}
