/**
 * The "my page" compatibility section: resolving a pair of personality
 * codes against the compatibility table, which may hold a pair under either
 * direction, and turning the visitor's connections into result cards.
 */
module MyPage {
  import opened Js

  datatype Compatibility = Compatibility(title: string, summary: string, good: string, caution: string, advice: string)

  /** A friend who arrived through the visitor's share link. */
  datatype Connection = Connection(nickname: string, typeCode: string)

  /** The table key of an ordered pair, as in `${myType}_${friendType}`. */
  function PairKey(first: string, second: string): (k: string)
    ensures |k| == |first| + 1 + |second|
    ensures k[..|first|] == first && k[|first|] == '_' && k[|first| + 1..] == second
  {
    first + "_" + second
  }

  /**
   * For codes without an underscore, such as the eight type codes, two pairs
   * share a key only when they are the same pair; in particular the forward
   * and reverse keys of two different codes differ.
   */
  lemma PairKeyInjective(a: string, b: string, c: string, d: string)
    requires '_' !in a && '_' !in c
    ensures PairKey(a, b) == PairKey(c, d) <==> a == c && b == d
  {
    var k, l := PairKey(a, b), PairKey(c, d);
    if k == l {
      if |a| != |c| {
        assert false;
      }
      assert a == k[..|a|] == l[..|c|] == c;
    }
  }

  /**
   * `getCompatibility`: the entry under the forward key when there is one,
   * otherwise the entry under the reverse key, otherwise `undefined`.
   */
  function GetCompatibility(table: map<string, Compatibility>, myType: string, friendType: string): (r: Option<Compatibility>)
    ensures r.Some? <==> PairKey(myType, friendType) in table || PairKey(friendType, myType) in table
    ensures PairKey(myType, friendType) in table ==> r == Some(table[PairKey(myType, friendType)])
    ensures r.Some? ==> r.value in table.Values
  {
    var matchKey := PairKey(myType, friendType);
    var reverseMatchKey := PairKey(friendType, myType);
    if matchKey in table then Some(table[matchKey])
    else if reverseMatchKey in table then Some(table[reverseMatchKey])
    else None
  }

  /** Only the reverse key present: its entry is the answer. */
  lemma ReverseKeyFallback(table: map<string, Compatibility>, myType: string, friendType: string)
    requires PairKey(myType, friendType) !in table && PairKey(friendType, myType) in table
    ensures GetCompatibility(table, myType, friendType) == Some(table[PairKey(friendType, myType)])
  {
  }

  /**
   * The lookup does not depend on the order of the two codes when the table
   * stores the pair under at most one of its two keys.
   */
  lemma GetCompatibilitySymmetric(table: map<string, Compatibility>, x: string, y: string)
    requires !(PairKey(x, y) in table && PairKey(y, x) in table) || table[PairKey(x, y)] == table[PairKey(y, x)]
    ensures GetCompatibility(table, x, y) == GetCompatibility(table, y, x)
  {
  }

  /**
   * When the table holds both directions with different entries, swapping
   * the two codes changes the answer: the forward key always wins.
   */
  lemma BothDirectionsStoredBreaksSymmetry(table: map<string, Compatibility>)
    requires table == map["A1_B2" := Compatibility("x", "", "", "", ""), "B2_A1" := Compatibility("y", "", "", "", "")]
    ensures GetCompatibility(table, "A1", "B2") != GetCompatibility(table, "B2", "A1")
  {
    assert PairKey("A1", "B2") == "A1_B2";
    assert PairKey("B2", "A1") == "B2_A1";
  }

  /** A rendered compatibility card: the connection's position, its nickname and the resolved entry. */
  datatype Card = Card(index: nat, nickname: string, compatibility: Compatibility)

  /**
   * The `connections.map` of the page: connections without a compatibility
   * entry render nothing, the others a card, in their original order.
   */
  function Cards(table: map<string, Compatibility>, myType: string, connections: seq<Connection>): (cards: seq<Card>)
    ensures |cards| <= |connections|
    ensures forall k :: 0 <= k < |cards| ==>
              && cards[k].index < |connections|
              && cards[k].nickname == connections[cards[k].index].nickname
              && GetCompatibility(table, myType, connections[cards[k].index].typeCode) == Some(cards[k].compatibility)
    ensures forall k, l :: 0 <= k < l < |cards| ==> cards[k].index < cards[l].index
    ensures forall i :: 0 <= i < |connections| && GetCompatibility(table, myType, connections[i].typeCode).Some? ==>
              exists k :: 0 <= k < |cards| && cards[k].index == i
    decreases |connections|
  {
    if connections == [] then []
    else
      var n := |connections| - 1;
      var prefix := Cards(table, myType, connections[..n]);
      var connection := connections[n];
      var compatibility := GetCompatibility(table, myType, connection.typeCode);
      assert forall i :: 0 <= i < n ==> connections[..n][i] == connections[i];
      if compatibility.None? then prefix
      else
        var cards := prefix + [Card(n, connection.nickname, compatibility.value)];
        assert forall k :: 0 <= k < |prefix| ==> cards[k] == prefix[k];
        assert cards[|prefix|].index == n;
        cards
  }

  datatype ConnectionsView = NoFriendsYet(message: string) | CardList(cards: seq<Card>)

  const NoFriendsMessage: string := "아직 공유를 통해 들어온 친구가 없습니다."

  /**
   * The connections section: the "no friends yet" line for an empty list,
   * otherwise the list of cards, which is empty when no connection has an
   * entry.
   */
  function RenderConnections(table: map<string, Compatibility>, myType: string, connections: seq<Connection>): (v: ConnectionsView)
    ensures v.NoFriendsYet? <==> connections == []
    ensures v.NoFriendsYet? ==> v.message == NoFriendsMessage
    ensures v.CardList? ==> v.cards == Cards(table, myType, connections)
  {
    if |connections| == 0 then NoFriendsYet(NoFriendsMessage) else CardList(Cards(table, myType, connections))
  }

  /** Connections none of whose types has an entry yield no cards. */
  lemma {:induction false} NoEntriesNoCards(table: map<string, Compatibility>, myType: string, connections: seq<Connection>)
    requires forall i :: 0 <= i < |connections| ==> GetCompatibility(table, myType, connections[i].typeCode).None?
    ensures Cards(table, myType, connections) == []
    decreases |connections|
  {
    if connections != [] {
      var n := |connections| - 1;
      assert forall i :: 0 <= i < n ==> connections[..n][i] == connections[i];
      NoEntriesNoCards(table, myType, connections[..n]);
    }
  }

  /** A non-empty list none of whose types has an entry renders an empty card list, not the message. */
  lemma UnmatchedConnectionsRenderNothing(table: map<string, Compatibility>, myType: string, connections: seq<Connection>)
    requires connections != []
    requires forall i :: 0 <= i < |connections| ==> GetCompatibility(table, myType, connections[i].typeCode).None?
    ensures RenderConnections(table, myType, connections) == CardList([])
  {
    NoEntriesNoCards(table, myType, connections);
  }
}
