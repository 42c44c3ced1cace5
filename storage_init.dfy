/**
 * The landing-page storage reset: on the home page the store is wiped,
 * unless the visitor arrived through a share link, in which case only the
 * three share parameters are kept.
 */
module StorageInit {
  import opened Js
  import opened Storage

  /** The keys a share link is staged under. */
  const ShareKeys: set<string> := {"from", "fromType", "fromNickname"}

  /** `from`, `type` and `nickname` are all present and non-empty in the query. */
  predicate SharedLink(query: map<string, string>) {
    Truthy(Get(query, "from")) && Truthy(Get(query, "type")) && Truthy(Get(query, "nickname"))
  }

  /**
   * The store after the initializer's effect has run on `pathname` with the
   * query parameters `query` (the first value of each name).
   */
  function InitializedItems(items: map<string, string>, pathname: string, query: map<string, string>): (r: map<string, string>)
    ensures pathname != "/" ==> r == items
    ensures pathname == "/" && !Truthy(Get(query, "from")) ==> r == map[]
    ensures pathname == "/" && SharedLink(query) ==>
              && r.Keys == ShareKeys
              && r["from"] == query["from"]
              && r["fromType"] == query["type"]
              && r["fromNickname"] == query["nickname"]
    ensures pathname == "/" && Truthy(Get(query, "from")) && !SharedLink(query) ==> r == items
  {
    if pathname != "/" then items
    else if !Truthy(Get(query, "from")) then map[]
    else if SharedLink(query) then
      map[]["from" := query["from"]]["fromType" := query["type"]]["fromNickname" := query["nickname"]]
    else items
  }

  /** Running the reset twice on the same page and query leaves what running it once left. */
  lemma InitializeIdempotent(items: map<string, string>, pathname: string, query: map<string, string>)
    ensures InitializedItems(InitializedItems(items, pathname, query), pathname, query)
         == InitializedItems(items, pathname, query)
  {
  }

  /**
   * After the reset on the home page the store holds nothing but the share
   * keys: in particular no stored answer and no uuid survives.
   */
  lemma LandingKeepsOnlyShareKeys(items: map<string, string>, query: map<string, string>)
    ensures InitializedItems(items, "/", query).Keys <= ShareKeys || InitializedItems(items, "/", query) == items
    ensures !Truthy(Get(query, "from")) || SharedLink(query) ==> InitializedItems(items, "/", query).Keys <= ShareKeys
  {
  }

  /**
   * The effect: `localStorage.clear()` followed, for a share link, by the three
   * `setItem` writes.
   */
  method InitializeStorage(ls: LocalStorage, pathname: string, query: map<string, string>)
    modifies ls
    ensures ls.items == InitializedItems(old(ls.items), pathname, query)
  {
    if pathname == "/" {
      var from := Get(query, "from");
      var fromType := Get(query, "type");
      var nickname := Get(query, "nickname");
      if !Truthy(from) {
        ls.Clear();
      } else if Truthy(from) && Truthy(fromType) && Truthy(nickname) {
        ls.Clear();
        ls.SetItem("from", from.value);
        ls.SetItem("fromType", fromType.value);
        ls.SetItem("fromNickname", nickname.value);
      }
    }
  }
}
