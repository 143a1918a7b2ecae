/**
 * Recipient resolution: the recent updates of the bot are filtered down to
 * those whose `message.from.id` is truthy, mapped to that id, and
 * deduplicated through a JavaScript `Set`, which keeps the order in which
 * each id was first inserted.
 */
module Recipients {
  import opened Wrappers

  /** A Telegram user identifier (a JavaScript number that is an integer). */
  type UserId = int

  /** The `from` object of a message; `id` may be absent. */
  datatype Sender = Sender(id: Option<UserId>)

  /** A message; `from` is absent for channel posts. */
  datatype Message = Message(from: Option<Sender>)

  /** One entry of `getUpdates`; `message` is absent for edits, callbacks and the like. */
  datatype Update = Update(message: Option<Message>)

  /** The value of `update.message?.from?.id` when it is truthy: present and not 0. */
  function SenderId(u: Update): Option<UserId>
  {
    if u.message.Some? && u.message.value.from.Some? && u.message.value.from.value.id.Some?
       && u.message.value.from.value.id.value != 0
    then Some(u.message.value.from.value.id.value)
    else None
  }

  /** The id of update number `k` is truthy and equals `x`. */
  ghost predicate CarriesId(updates: seq<Update>, k: int, x: UserId)
  {
    0 <= k < |updates| && SenderId(updates[k]) == Some(x)
  }

  /** `updates.filter(u => u.message?.from?.id).map(u => u.message.from.id)` */
  function SenderIds(updates: seq<Update>): (ids: seq<UserId>)
    ensures |ids| <= |updates|
    ensures forall x :: x in ids <==> exists k :: CarriesId(updates, k, x)
    ensures forall x :: x in ids ==> x != 0
  {
    if updates == [] then []
    else
      var rest := SenderIds(updates[1..]);
      var ids := match SenderId(updates[0])
        case Some(id) => [id] + rest
        case None => rest;
      assert forall x :: x in ids <==> exists k :: CarriesId(updates, k, x) by {
        forall x ensures x in ids <==> exists k :: CarriesId(updates, k, x) {
          CarriesIdTail(updates, x);
        }
      }
      ids
  }

  /** An id is carried by some update exactly when it is carried by the first or by one of the rest. */
  lemma CarriesIdTail(updates: seq<Update>, x: UserId)
    requires updates != []
    ensures (exists k :: CarriesId(updates, k, x)) <==>
            (CarriesId(updates, 0, x) || exists k :: CarriesId(updates[1..], k, x))
  {
    if k :| CarriesId(updates, k, x) {
      if k > 0 {
        assert CarriesId(updates[1..], k - 1, x);
      }
    }
    if k :| CarriesId(updates[1..], k, x) {
      assert CarriesId(updates, k + 1, x);
    }
  }

  ghost predicate NoDuplicates(s: seq<UserId>)
  {
    forall i, j :: 0 <= i < j < |s| ==> s[i] != s[j]
  }

  /** The position of the first occurrence of `x` in `s`, or `|s|` when there is none. */
  function FirstIndex(s: seq<UserId>, x: UserId): (i: nat)
    ensures i <= |s|
    ensures x !in s[..i]
    ensures i < |s| ==> s[i] == x
    ensures i == |s| <==> x !in s
  {
    if s == [] then 0
    else if s[0] == x then 0
    else
      var i := 1 + FirstIndex(s[1..], x);
      assert s[..i] == [s[0]] + s[1..][..i - 1];
      assert s == [s[0]] + s[1..];
      i
  }

  /** `[...new Set(s)]`: each element once, at the place of its first occurrence. */
  function Distinct(s: seq<UserId>): (r: seq<UserId>)
    ensures |r| <= |s|
    ensures NoDuplicates(r)
    ensures forall x :: x in r <==> x in s
  {
    if s == [] then []
    else
      var d := Distinct(s[..|s| - 1]);
      var last := s[|s| - 1];
      assert s == s[..|s| - 1] + [last];
      if last in d then d else d + [last]
  }

  /**
   * An order-independent description of what `[...new Set(s)]` yields:
   * no element twice, exactly the elements of `s`, ordered by where each
   * first occurs in `s`.
   */
  ghost predicate DistinctOf(s: seq<UserId>, r: seq<UserId>)
  {
    && NoDuplicates(r)
    && SameElements(r, s)
    && OrderedByFirstIndex(s, r)
  }

  /** The first occurrences of elements of `p` do not move when `t` is appended. */
  lemma {:induction false} FirstIndexAppend(p: seq<UserId>, t: seq<UserId>, x: UserId)
    requires x in p
    ensures FirstIndex(p + t, x) == FirstIndex(p, x)
  {
    var i := FirstIndex(p, x);
    var k := FirstIndex(p + t, x);
    assert (p + t)[i] == x;
    assert (p + t)[..i] == p[..i];
  }

  /** `Distinct` meets the order-independent description. */
  lemma {:induction false} DistinctIsDistinctOf(s: seq<UserId>)
    ensures DistinctOf(s, Distinct(s))
    decreases |s|
  {
    if s != [] {
      var p := s[..|s| - 1];
      var last := s[|s| - 1];
      var d := Distinct(p);
      assert s == p + [last];
      DistinctIsDistinctOf(p);
      forall y | y in d ensures FirstIndex(s, y) == FirstIndex(p, y) && FirstIndex(p, y) < |p| {
        FirstIndexAppend(p, [last], y);
      }
      if last !in d {
        var r := d + [last];
        assert FirstIndex(s, last) == |p|;
        forall i, j | 0 <= i < j < |r| ensures FirstIndex(s, r[i]) < FirstIndex(s, r[j]) {
          assert r[i] in d;
          if j < |d| {
            assert r[j] in d;
          }
        }
      }
    }
  }

  /** The description determines the sequence: there is only one way to meet it. */
  lemma {:induction false} DistinctOfUnique(s: seq<UserId>, r1: seq<UserId>, r2: seq<UserId>)
    requires DistinctOf(s, r1) && DistinctOf(s, r2)
    ensures r1 == r2
  {
    SortedByFirstIndexUnique(s, r1, r2);
  }

  /** `r` is strictly ordered by the place where each of its elements first occurs in `s`. */
  ghost predicate OrderedByFirstIndex(s: seq<UserId>, r: seq<UserId>)
  {
    forall i, j :: 0 <= i < j < |r| ==> FirstIndex(s, r[i]) < FirstIndex(s, r[j])
  }

  ghost predicate SameElements(r1: seq<UserId>, r2: seq<UserId>)
  {
    forall x :: x in r1 <==> x in r2
  }

  /** Two ordered sequences with the same elements start with the same element. */
  lemma SameHead(s: seq<UserId>, r1: seq<UserId>, r2: seq<UserId>)
    requires OrderedByFirstIndex(s, r1) && OrderedByFirstIndex(s, r2)
    requires SameElements(r1, r2)
    requires r1 != []
    ensures r2 != [] && r1[0] == r2[0]
  {
    assert r1[0] in r1;
    assert r2 != [] && r2[0] in r2;
    var a :| 0 <= a < |r1| && r1[a] == r2[0];
    var b :| 0 <= b < |r2| && r2[b] == r1[0];
  }

  /** Dropping the head of an ordered sequence keeps it ordered and removes exactly the head. */
  lemma OrderedTail(s: seq<UserId>, r: seq<UserId>)
    requires OrderedByFirstIndex(s, r)
    requires r != []
    ensures OrderedByFirstIndex(s, r[1..])
    ensures forall x :: x in r[1..] <==> x in r && x != r[0]
  {
  }

  lemma {:induction false} SortedByFirstIndexUnique(s: seq<UserId>, r1: seq<UserId>, r2: seq<UserId>)
    requires OrderedByFirstIndex(s, r1) && OrderedByFirstIndex(s, r2)
    requires SameElements(r1, r2)
    ensures r1 == r2
    decreases |r1|
  {
    if r1 != [] {
      SameHead(s, r1, r2);
      OrderedTail(s, r1);
      OrderedTail(s, r2);
      assert SameElements(r1[1..], r2[1..]);
      SortedByFirstIndexUnique(s, r1[1..], r2[1..]);
      assert r1 == [r1[0]] + r1[1..] && r2 == [r2[0]] + r2[1..];
    } else if r2 != [] {
      SameHead(s, r2, r1);
    }
  }

  /** The recipients of a broadcast: `[...new Set(updates.filter(…).map(…))]`. */
  function Resolve(updates: seq<Update>): seq<UserId>
  {
    Distinct(SenderIds(updates))
  }

  /**
   * The resolved recipients are exactly the distinct truthy sender ids, in the
   * order of their first occurrence (`DistinctOfUnique` shows no other
   * sequence is).
   */
  lemma ResolveCorrect(updates: seq<Update>)
    ensures DistinctOf(SenderIds(updates), Resolve(updates))
    ensures forall x :: x in Resolve(updates) <==> exists k :: CarriesId(updates, k, x)
    ensures forall x :: x in Resolve(updates) ==> x != 0
    ensures |Resolve(updates)| <= |updates|
  {
    DistinctIsDistinctOf(SenderIds(updates));
  }

  /** Filtering and mapping distribute over concatenation, so the ids come in the feed's order. */
  lemma {:induction false} SenderIdsAppend(a: seq<Update>, b: seq<Update>)
    ensures SenderIds(a + b) == SenderIds(a) + SenderIds(b)
  {
    if a != [] {
      var head := if SenderId(a[0]).Some? then [SenderId(a[0]).value] else [];
      assert (a + b)[0] == a[0];
      assert (a + b)[1..] == a[1..] + b;
      assert SenderIds(a) == head + SenderIds(a[1..]);
      assert SenderIds(a + b) == head + SenderIds(a[1..] + b);
      SenderIdsAppend(a[1..], b);
    } else {
      assert a + b == b;
    }
  }

  /** A single update contributes its id when it is truthy, and nothing otherwise. */
  lemma SenderIdsSingle(u: Update)
    ensures SenderIds([u]) == if SenderId(u).Some? then [SenderId(u).value] else []
  {
    assert [u][1..] == [];
  }

  /** The index of the first update that carries `x`, or `|updates|` when none does. */
  function FirstCarrier(updates: seq<Update>, x: UserId): (k: nat)
    ensures k <= |updates|
    ensures k < |updates| ==> CarriesId(updates, k, x)
    ensures forall i :: 0 <= i < k ==> !CarriesId(updates, i, x)
  {
    if updates == [] then 0
    else if SenderId(updates[0]) == Some(x) then 0
    else
      var k := 1 + FirstCarrier(updates[1..], x);
      assert forall i :: 1 <= i < k ==> !CarriesId(updates[1..], i - 1, x) && updates[i] == updates[1..][i - 1];
      assert !CarriesId(updates, 0, x);
      k
  }

  /** Ids that first occur earlier among the sender ids are first carried by earlier updates. */
  lemma {:induction false} FeedOrder(updates: seq<Update>, x: UserId, y: UserId)
    requires FirstIndex(SenderIds(updates), x) < FirstIndex(SenderIds(updates), y)
    ensures FirstCarrier(updates, x) < FirstCarrier(updates, y)
  {
    var ids := SenderIds(updates);
    assert x in ids by {
      assert ids[FirstIndex(ids, x)] == x;
    }
    assert updates != [];
    var rest := SenderIds(updates[1..]);
    match SenderId(updates[0])
    case Some(id) =>
      assert ids == [id] + rest && ids[1..] == rest;
      if id != x {
        assert id != y;
        FeedOrder(updates[1..], x, y);
      }
    case None =>
      FeedOrder(updates[1..], x, y);
  }

  /**
   * What `[...new Set(updates.filter(…).map(…))]` yields, stated on the feed
   * itself: no id twice, exactly the carried ids, each ordered by the first
   * update that carries it.
   */
  ghost predicate ResolvedFrom(updates: seq<Update>, r: seq<UserId>)
  {
    && NoDuplicates(r)
    && (forall x :: x in r <==> exists k :: CarriesId(updates, k, x))
    && (forall i, j :: 0 <= i < j < |r| ==> FirstCarrier(updates, r[i]) < FirstCarrier(updates, r[j]))
  }

  /** The resolved recipients follow the feed: ordered by the first update carrying each. */
  lemma ResolveFollowsFeed(updates: seq<Update>)
    ensures ResolvedFrom(updates, Resolve(updates))
  {
    var ids := SenderIds(updates);
    var r := Resolve(updates);
    DistinctIsDistinctOf(ids);
    forall i, j | 0 <= i < j < |r| ensures FirstCarrier(updates, r[i]) < FirstCarrier(updates, r[j]) {
      FeedOrder(updates, r[i], r[j]);
    }
  }

  /** Only one sequence meets that description: the resolved recipients are fully determined by the feed. */
  lemma ResolvedFromUnique(updates: seq<Update>, r: seq<UserId>)
    requires ResolvedFrom(updates, r)
    ensures r == Resolve(updates)
  {
    var ids := SenderIds(updates);
    forall i, j | 0 <= i < j < |r| ensures FirstIndex(ids, r[i]) < FirstIndex(ids, r[j]) {
      assert r[i] in r && r[j] in r;
      assert r[i] in ids && r[j] in ids;
      if FirstIndex(ids, r[j]) < FirstIndex(ids, r[i]) {
        FeedOrder(updates, r[j], r[i]);
      }
    }
    assert SameElements(r, ids);
    DistinctIsDistinctOf(ids);
    DistinctOfUnique(ids, r, Distinct(ids));
  }

  /** No recipients exactly when no update carries a truthy sender id. */
  lemma ResolveEmpty(updates: seq<Update>)
    ensures Resolve(updates) == [] <==> forall k :: 0 <= k < |updates| ==> SenderId(updates[k]).None?
  {
    if Resolve(updates) != [] {
      assert Resolve(updates)[0] in Resolve(updates);
    }
    if k :| 0 <= k < |updates| && SenderId(updates[k]).Some? {
      assert CarriesId(updates, k, SenderId(updates[k]).value);
      assert SenderId(updates[k]).value in Resolve(updates);
    }
  }
}
