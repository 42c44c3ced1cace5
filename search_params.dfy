/**
 * The share-parameter staging, wherever it is mounted (the landing page runs
 * an identical copy of it): when the query carries a complete share link,
 * its three parameters are written to the store; nothing is cleared.
 */
module SearchParams {
  import opened Js
  import opened Storage
  import opened StorageInit

  /** The store after the handler's effect has run with the query parameters `query`. */
  function SharedItems(items: map<string, string>, query: map<string, string>): (r: map<string, string>)
    ensures r.Keys == if SharedLink(query) then items.Keys + ShareKeys else items.Keys
    ensures forall k :: k in items && k !in ShareKeys ==> r[k] == items[k]
    ensures SharedLink(query) ==>
              && r["from"] == query["from"]
              && r["fromType"] == query["type"]
              && r["fromNickname"] == query["nickname"]
    ensures !SharedLink(query) ==> r == items
  {
    if SharedLink(query) then
      items["from" := query["from"]]["fromType" := query["type"]]["fromNickname" := query["nickname"]]
    else items
  }

  /** Writing the same share link twice is writing it once. */
  lemma SharedItemsIdempotent(items: map<string, string>, query: map<string, string>)
    ensures SharedItems(SharedItems(items, query), query) == SharedItems(items, query)
  {
  }

  /**
   * On the home page the handler adds nothing to what the initializer
   * leaves: the two agree on the share keys and the handler never clears.
   */
  lemma HandlerAfterInitializerOnLanding(items: map<string, string>, query: map<string, string>)
    ensures SharedItems(InitializedItems(items, "/", query), query) == InitializedItems(items, "/", query)
  {
  }

  /**
   * Unlike the initializer, the handler keeps the rest of the store: an
   * answer stored under any other key survives a share link.
   */
  lemma HandlerKeepsOtherKeys(items: map<string, string>, query: map<string, string>, key: string)
    requires key in items && key !in ShareKeys
    ensures key in SharedItems(items, query) && SharedItems(items, query)[key] == items[key]
  {
  }

  /** The effect: three `setItem` writes, only for a complete share link. */
  method StageShareParams(ls: LocalStorage, query: map<string, string>)
    modifies ls
    ensures ls.items == SharedItems(old(ls.items), query)
  {
    var from := Get(query, "from");
    var fromType := Get(query, "type");
    var nickname := Get(query, "nickname");
    if Truthy(from) && Truthy(fromType) && Truthy(nickname) {
      ls.SetItem("from", from.value);
      ls.SetItem("fromType", fromType.value);
      ls.SetItem("fromNickname", nickname.value);
    }
  }
}
