/**
 * The `Rock` record (src/types/rock.ts) and the island partition used by the
 * detail view's sidebar (src/components/RockDetailClient.tsx).
 *
 * Only the fields that some behaviour depends on are kept. The record type
 * declares an `order_index` column while both components read
 * `display_order`; the model keeps one ordering field, `displayOrder`.
 */
module Rocks {

  /** The two islands a rock may belong to: 동도 (east) and 서도 (west). */
  datatype Island = Dongdo | Seodo

  datatype Rock = Rock(
    id: string,
    name: string,
    description: string,
    youtubeUrl: string,   // "" when the rock has no video
    modelUrl: string,     // "" when the 3D model is not ready yet
    island: Island,
    displayOrder: int)

  /** Route of a rock's detail page, `/rocks/<id>`. */
  function DetailRoute(id: string): (r: string)
    ensures |r| == |id| + 7 && r[..7] == "/rocks/" && r[7..] == id
  {
    "/rocks/" + id
  }

  /** Route of the overview page. */
  const HomeRoute: string := "/"

  /** The collection as listed by the content store: ascending by order. */
  ghost predicate SortedByOrder(rocks: seq<Rock>) {
    forall i, j :: 0 <= i < j < |rocks| ==> rocks[i].displayOrder <= rocks[j].displayOrder
  }

  /** Identifiers are primary keys: no two listed rocks share one. */
  ghost predicate UniqueIds(rocks: seq<Rock>) {
    forall i, j :: 0 <= i < j < |rocks| ==> rocks[i].id != rocks[j].id
  }

  /** `a` is `b` with some elements dropped and the rest kept in order. */
  ghost predicate IsSubsequence(a: seq<Rock>, b: seq<Rock>)
    decreases |b|
  {
    if a == [] then true
    else if b == [] then false
    else if a[0] == b[0] then IsSubsequence(a[1..], b[1..])
    else IsSubsequence(a, b[1..])
  }

  /** How many rocks in `rocks` carry identifier `id`. */
  function CountId(rocks: seq<Rock>, id: string): (n: nat)
    ensures n <= |rocks|
    ensures n == 0 <==> forall k :: 0 <= k < |rocks| ==> rocks[k].id != id
  {
    if rocks == [] then 0
    else (if rocks[0].id == id then 1 else 0) + CountId(rocks[1..], id)
  }

  /**
   * `allRocks.filter((r) => r.island === island)`: the rocks of one island,
   * in the order they were listed.
   */
  function OnIsland(rocks: seq<Rock>, island: Island): (r: seq<Rock>)
    ensures |r| <= |rocks|
    ensures forall k :: 0 <= k < |r| ==> r[k].island == island
    ensures forall x :: multiset(r)[x] == if x.island == island then multiset(rocks)[x] else 0
  {
    if rocks == [] then []
    else
      var rest := OnIsland(rocks[1..], island);
      assert rocks == [rocks[0]] + rocks[1..];
      if rocks[0].island == island then [rocks[0]] + rest else rest
  }

  /** The two island lists together hold every rock exactly once. */
  lemma IslandsPartition(rocks: seq<Rock>)
    ensures multiset(OnIsland(rocks, Dongdo)) + multiset(OnIsland(rocks, Seodo)) == multiset(rocks)
    ensures |OnIsland(rocks, Dongdo)| + |OnIsland(rocks, Seodo)| == |rocks|
  {
  }

  /** Each island list keeps the listed order: it is a subsequence of the input. */
  lemma {:induction false} OnIslandIsSubsequence(rocks: seq<Rock>, island: Island)
    ensures IsSubsequence(OnIsland(rocks, island), rocks)
  {
    if rocks != [] {
      OnIslandIsSubsequence(rocks[1..], island);
      var rest := OnIsland(rocks[1..], island);
      if rocks[0].island != island && rest != [] {
        SubsequenceSkip(rest, rocks);
      }
    }
  }

  /** Dropping the head of the longer sequence keeps a subsequence a subsequence. */
  lemma {:induction false} SubsequenceSkip(a: seq<Rock>, b: seq<Rock>)
    requires b != [] && IsSubsequence(a, b[1..])
    ensures IsSubsequence(a, b)
    decreases |b|, 0
  {
    if a != [] && a[0] == b[0] {
      SubsequenceDropHead(a, b[1..]);
    }
  }

  lemma {:induction false} SubsequenceDropHead(a: seq<Rock>, b: seq<Rock>)
    requires a != [] && IsSubsequence(a, b)
    ensures IsSubsequence(a[1..], b)
    decreases |b|, 1
  {
    if b != [] && a[0] != b[0] {
      SubsequenceDropHead(a, b[1..]);
      if a[1..] != [] {
        SubsequenceSkip(a[1..], b);
      }
    } else if b != [] && a[1..] != [] {
      SubsequenceSkip(a[1..], b);
    }
  }

  /** Every rock an island list holds is one of the listed rocks. */
  lemma OnIslandMember(rocks: seq<Rock>, island: Island, k: nat) returns (j: nat)
    requires k < |OnIsland(rocks, island)|
    ensures j < |rocks| && rocks[j] == OnIsland(rocks, island)[k]
  {
    var r := OnIsland(rocks, island);
    assert r[k] in multiset(r);
    assert r[k] in multiset(rocks);
    j :| 0 <= j < |rocks| && rocks[j] == r[k];
  }

  /** A list sorted by order stays sorted when split by island. */
  lemma {:induction false} OnIslandKeepsSorted(rocks: seq<Rock>, island: Island)
    requires SortedByOrder(rocks)
    ensures SortedByOrder(OnIsland(rocks, island))
  {
    if rocks != [] {
      var tail := rocks[1..];
      assert SortedByOrder(tail);
      OnIslandKeepsSorted(tail, island);
      var rest := OnIsland(tail, island);
      forall k | 0 <= k < |rest|
        ensures rocks[0].displayOrder <= rest[k].displayOrder
      {
        var j := OnIslandMember(tail, island, k);
        assert tail[j] == rocks[j + 1];
      }
    }
  }

  /** Counting an identifier over both islands counts it over the whole list. */
  lemma {:induction false} CountIdSplits(rocks: seq<Rock>, id: string)
    ensures CountId(OnIsland(rocks, Dongdo), id) + CountId(OnIsland(rocks, Seodo), id) == CountId(rocks, id)
  {
    if rocks != [] {
      CountIdSplits(rocks[1..], id);
    }
  }

  /** With unique identifiers, a listed identifier occurs exactly once. */
  lemma {:induction false} UniqueIdCountsOnce(rocks: seq<Rock>, k: nat)
    requires UniqueIds(rocks) && k < |rocks|
    ensures CountId(rocks, rocks[k].id) == 1
  {
    if k == 0 {
      assert forall j :: 0 <= j < |rocks[1..]| ==> rocks[1..][j].id != rocks[0].id by {
        forall j | 0 <= j < |rocks[1..]| ensures rocks[1..][j].id != rocks[0].id {
          assert rocks[1..][j] == rocks[j + 1];
        }
      }
    } else {
      assert rocks[1..][k - 1] == rocks[k];
      UniqueIdCountsOnce(rocks[1..], k - 1);
    }
  }
}
