/** The Registry's sliding-window request limiter with a bounded number of tracked clients. */
module RateLimiter {
  import opened Common

  /** A bucket and a client address. */
  datatype Key = Key(bucket: string, address: string)

  const WINDOW: real := 60.0

  /** The tracked keys, least recently called first, and each one's admitted request times. */
  datatype Table = Table(order: seq<Key>, histories: map<Key, seq<real>>)

  const EMPTY: Table := Table([], map[])

  function Without(order: seq<Key>, key: Key): seq<Key> {
    if order == [] then []
    else if order[0] == key then order[1..]
    else [order[0]] + Without(order[1..], key)
  }

  /** Drops the leading times that have left the window ending at `now`. */
  function Prune(history: seq<real>, now: real): seq<real> {
    if history != [] && history[0] <= now - WINDOW then Prune(history[1..], now) else history
  }

  /** The table with `key` tracked as the most recently called. */
  function Touch(table: Table, clients: nat, key: Key): Table {
    if key in table.histories then
      Table(Without(table.order, key) + [key], table.histories)
    else if clients <= |table.order| && table.order != [] then
      Table(table.order[1..] + [key], (table.histories - {table.order[0]})[key := []])
    else
      Table(table.order + [key], table.histories[key := []])
  }

  ghost predicate Tracks(table: Table) {
    && (forall k :: k in table.order <==> k in table.histories)
    && (forall i, j :: 0 <= i < j < |table.order| ==> table.order[i] != table.order[j])
  }

  class RateLimiter {
    const maximumClients: nat
    var order: seq<Key>
    var histories: map<Key, seq<real>>

    function Abs(): Table
      reads this
    {
      Table(order, histories)
    }

    /** A bound below one is refused. */
    static method Create(maximumClients: int) returns (r: Option<RateLimiter>)
      ensures r.None? <==> maximumClients < 1
      ensures r.Some? ==>
        fresh(r.value) && r.value.Abs() == EMPTY && r.value.maximumClients == maximumClients
    {
      if maximumClients < 1 {
        return None;
      }
      var limiter := new RateLimiter(maximumClients);
      return Some(limiter);
    }

    constructor (maximumClients: nat)
      requires 1 <= maximumClients
      ensures Abs() == EMPTY && this.maximumClients == maximumClients
    {
      this.maximumClients := maximumClients;
      order, histories := [], map[];
    }

    /** Makes `key` the most recently called key, evicting the least recent one to make room. */
    method Track(key: Key)
      modifies this
      ensures Abs() == Touch(old(Abs()), maximumClients, key)
    {
      if key !in histories {
        if maximumClients <= |order| && order != [] {
          histories := histories - {order[0]};
          order := order[1..];
        }
        histories := histories[key := []];
        order := order + [key];
      } else {
        order := Without(order, key) + [key];
      }
    }

    method Limited(key: Key, maximum: nat, now: real) returns (limited: bool)
      modifies this
      ensures Abs() == Call(old(Abs()), maximumClients, key, maximum, now).0
      ensures limited == Call(old(Abs()), maximumClients, key, maximum, now).1
    {
      Track(key);
      ghost var touched := Abs();
      assert key in histories;
      hide Touch;
      var history := histories[key];
      while history != [] && history[0] <= now - WINDOW
        invariant Prune(history, now) == Prune(touched.histories[key], now)
      {
        history := history[1..];
      }
      histories := histories[key := history];
      if |history| >= maximum {
        return true;
      }
      histories := histories[key := history + [now]];
      assert histories == touched.histories[key := history + [now]];
      return false;
    }
  }

  /** One call: the table afterwards and whether the request was refused. */
  function Call(table: Table, clients: nat, key: Key, maximum: nat, now: real): (Table, bool) {
    var touched := Touch(table, clients, key);
    var history := Prune(if key in touched.histories then touched.histories[key] else [], now);
    if |history| >= maximum
    then (touched.(histories := touched.histories[key := history]), true)
    else (touched.(histories := touched.histories[key := history + [now]]), false)
  }

  // ---- Runs ----

  datatype Request = Request(key: Key, now: real)

  /** A limiter's whole life: the requests in order, with a fixed maximum for each bucket. */
  datatype Life = Life(clients: nat, maximum: string -> nat, requests: seq<Request>)
  {
    ghost predicate Valid() {
      && 1 <= clients
      && forall i, j :: 0 <= i < j < |requests| ==> requests[i].now <= requests[j].now
    }

    function Maximum(key: Key): nat {
      maximum(key.bucket)
    }

    /** The table before request `i`. */
    function At(i: nat): Table
      requires i <= |requests|
    {
      if i == 0 then EMPTY
      else Call(At(i - 1), clients, requests[i - 1].key, Maximum(requests[i - 1].key), requests[i - 1].now).0
    }

    /** Request `i` was refused. */
    predicate Refused(i: nat)
      requires i < |requests|
    {
      Call(At(i), clients, requests[i].key, Maximum(requests[i].key), requests[i].now).1
    }

    /** How many of `key`'s requests in `lo..hi` were admitted later than `cutoff`. */
    function Admitted(key: Key, lo: nat, hi: nat, cutoff: real): nat
      requires lo <= hi <= |requests|
      decreases hi
    {
      if lo == hi then 0
      else
        Admitted(key, lo, hi - 1, cutoff)
        + if requests[hi - 1].key == key && requests[hi - 1].now > cutoff && !Refused(hi - 1) then 1 else 0
    }

    /** The keys other than `key` called in `lo..hi`. */
    function Others(key: Key, lo: nat, hi: nat): set<Key>
      requires lo <= hi <= |requests|
    {
      set q | lo <= q < hi && requests[q].key != key :: requests[q].key
    }

    ghost predicate LastCall(key: Key, j: nat, i: nat)
      requires i <= |requests|
    {
      j < i && requests[j].key == key && forall q :: j < q < i ==> requests[q].key != key
    }

    ghost predicate Tracked(key: Key, i: nat)
      requires i <= |requests|
    {
      key in At(i).histories
    }

    /** `key` entered the table at request `e` and has stayed ever since. */
    ghost predicate TrackedSince(key: Key, e: nat, i: nat)
      requires i <= |requests|
    {
      && e < i && requests[e].key == key && !Tracked(key, e)
      && forall q :: e < q <= i ==> Tracked(key, q)
    }
  }

  // ---- The table stays bounded and consistent ----

  ghost predicate Distinct(order: seq<Key>) {
    forall i, j :: 0 <= i < j < |order| ==> order[i] != order[j]
  }

  ghost function Elements(order: seq<Key>): set<Key> {
    set k | k in order
  }

  lemma HeadApart(order: seq<Key>)
    requires order != []
    ensures Elements(order) == Elements(order[1..]) + {order[0]}
    ensures Distinct(order) <==> Distinct(order[1..]) && order[0] !in order[1..]
  {
    assert forall k :: k in order <==> k == order[0] || k in order[1..];
    if Distinct(order[1..]) && order[0] !in order[1..] {
      forall i, j | 0 <= i < j < |order|
        ensures order[i] != order[j]
      {
        assert order[j] == order[1..][j - 1];
        assert 0 < i ==> order[i] == order[1..][i - 1];
      }
    }
  }

  lemma {:induction false} DistinctCount(order: seq<Key>)
    requires Distinct(order)
    ensures |Elements(order)| == |order|
  {
    if order == [] {
    } else {
      HeadApart(order);
      DistinctCount(order[1..]);
    }
  }

  lemma {:induction false} WithoutParts(order: seq<Key>, key: Key)
    requires Distinct(order) && key in order
    ensures var rest := Without(order, key);
      && |rest| == |order| - 1 && Distinct(rest)
      && Elements(rest) == Elements(order) - {key}
  {
    HeadApart(order);
    if order[0] != key {
      WithoutParts(order[1..], key);
      var rest := Without(order, key);
      assert rest[1..] == Without(order[1..], key);
      assert order[0] !in Elements(rest[1..]);
      HeadApart(rest);
    } else {
      assert key !in Elements(order[1..]);
    }
  }

  lemma AppendApart(order: seq<Key>, key: Key)
    requires Distinct(order) && key !in order
    ensures Distinct(order + [key]) && Elements(order + [key]) == Elements(order) + {key}
  {
  }

  lemma TouchKeeps(table: Table, clients: nat, key: Key)
    requires 1 <= clients && Tracks(table) && |table.order| <= clients
    ensures var touched := Touch(table, clients, key);
      && Tracks(touched) && |touched.order| <= clients
      && touched.order != [] && touched.order[|touched.order| - 1] == key
  {
    hide Distinct, Elements;
    TracksParts(table);
    var touched := Touch(table, clients, key);
    if key in table.histories {
      WithoutParts(table.order, key);
      InElements(Without(table.order, key), key);
      AppendApart(Without(table.order, key), key);
    } else if clients <= |table.order| {
      HeadApart(table.order);
      InElements(table.order[1..], key);
      AppendApart(table.order[1..], key);
    } else {
      AppendApart(table.order, key);
    }
    InElements(table.order, key);
    TracksParts(touched);
  }

  lemma InElements(order: seq<Key>, key: Key)
    ensures key in Elements(order) <==> key in order
  {
  }

  lemma TracksParts(table: Table)
    ensures Tracks(table) <==> Distinct(table.order) && Elements(table.order) == table.histories.Keys
  {
    if Distinct(table.order) && Elements(table.order) == table.histories.Keys {
      forall k
        ensures k in table.order <==> k in table.histories
      {
        assert k in Elements(table.order) <==> k in table.histories.Keys;
      }
    }
  }

  /** The number of tracked keys never exceeds the configured bound. */
  lemma {:induction false} TableBounded(life: Life, i: nat)
    requires life.Valid() && i <= |life.requests|
    ensures Tracks(life.At(i)) && |life.At(i).order| <= life.clients
  {
    if i == 0 {
    } else {
      TableBounded(life, i - 1);
      TouchKeeps(life.At(i - 1), life.clients, life.requests[i - 1].key);
    }
  }

  // ---- Which keys are remembered ----

  /** The keys called since `key` was. */
  function Behind(order: seq<Key>, key: Key): seq<Key> {
    if order == [] then []
    else if order[0] == key then order[1..]
    else Behind(order[1..], key)
  }

  lemma {:induction false} BehindAppend(order: seq<Key>, key: Key, c: Key)
    requires key in order
    ensures Behind(order + [c], key) == Behind(order, key) + [c]
  {
    assert (order + [c])[1..] == order[1..] + [c];
    if order[0] != key {
      BehindAppend(order[1..], key, c);
    }
  }

  lemma {:induction false} BehindWithout(order: seq<Key>, key: Key, c: Key)
    requires Distinct(order) && key in order && c in order && c != key
    ensures key in Without(order, c)
    ensures Elements(Behind(Without(order, c), key)) == Elements(Behind(order, key)) - {c}
  {
    HeadApart(order);
    if order[0] == c {
      BehindInside(order[1..], key);
    } else if order[0] == key {
      WithoutParts(order[1..], c);
      assert Without(order, c)[1..] == Without(order[1..], c);
    } else {
      BehindWithout(order[1..], key, c);
      assert Without(order, c)[1..] == Without(order[1..], c);
    }
  }

  lemma {:induction false} BehindInside(order: seq<Key>, key: Key)
    requires Distinct(order)
    ensures Elements(Behind(order, key)) <= Elements(order)
    ensures Distinct(Behind(order, key))
    ensures key in order ==> |Behind(order, key)| < |order| && key !in Behind(order, key)
  {
    if order == [] {
    } else {
      HeadApart(order);
      if order[0] != key {
        BehindInside(order[1..], key);
      }
    }
  }

  lemma LastIsNewest(order: seq<Key>, key: Key)
    requires key !in order
    ensures Behind(order + [key], key) == []
    decreases |order|
  {
    if order != [] {
      assert (order + [key])[1..] == order[1..] + [key];
      LastIsNewest(order[1..], key);
    }
  }

  /** Calling a tracked key `c` moves it behind `key`. */
  lemma {:induction false} MoveBehind(order: seq<Key>, c: Key, key: Key)
    requires Distinct(order) && key in order && c in order && c != key
    ensures var later := Without(order, c) + [c];
      key in later && Elements(Behind(later, key)) == Elements(Behind(order, key)) + {c}
  {
    BehindWithout(order, key, c);
    BehindAppend(Without(order, c), key, c);
    hide Behind, Without;
    ElementsAppend(Behind(Without(order, c), key), c);
  }

  /** Evicting the oldest key for a new key `c` drops `key` only when all others are behind it. */
  lemma {:induction false} EvictBehind(order: seq<Key>, c: Key, key: Key)
    requires Distinct(order) && key in order && c !in order
    ensures var later := order[1..] + [c];
      if order[0] == key then key !in later && |Elements(Behind(order, key)) + {c}| == |order|
      else key in later && Elements(Behind(later, key)) == Elements(Behind(order, key)) + {c}
  {
    HeadApart(order);
    if order[0] == key {
      DistinctCount(order[1..]);
      assert c !in Elements(order[1..]);
    } else {
      BehindAppend(order[1..], key, c);
    }
  }

  lemma BehindCount(order: seq<Key>, key: Key)
    requires Distinct(order) && key in order
    ensures |Elements(Behind(order, key))| < |order|
  {
    BehindInside(order, key);
    DistinctCount(Behind(order, key));
  }

  /** How a call of another key `c` moves `key` towards eviction. */
  lemma TouchOther(table: Table, clients: nat, c: Key, key: Key, others: set<Key>)
    requires 1 <= clients && Tracks(table) && |table.order| <= clients && c != key
    requires key in table.order ==> Elements(Behind(table.order, key)) == others
    requires key in table.order <==> |others| < clients
    ensures var touched := Touch(table, clients, c);
      && (key in touched.order ==> Elements(Behind(touched.order, key)) == others + {c})
      && (key in touched.order <==> |others + {c}| < clients)
  {
    var order := table.order;
    var touched := Touch(table, clients, c);
    TouchKeeps(table, clients, c);
    TracksParts(table);
    TracksParts(touched);
    TrackedInOrder(table, c);
    hide Elements, Behind, Distinct, Tracks;
    if key !in order {
      assert c in others ==> others + {c} == others;
      NotTouched(table, clients, c, key);
    } else {
      if c in table.histories {
        MoveBehind(order, c, key);
      } else if clients <= |order| {
        EvictBehind(order, c, key);
      } else {
        BehindAppend(order, key, c);
        InElements(Behind(order, key) + [c], c);
        ElementsAppend(Behind(order, key), c);
      }
      if key in touched.order {
        BehindCount(touched.order, key);
      }
    }
  }

  lemma ElementsAppend(order: seq<Key>, c: Key)
    ensures Elements(order + [c]) == Elements(order) + {c}
  {
  }

  lemma NotTouched(table: Table, clients: nat, c: Key, key: Key)
    requires Tracks(table) && key !in table.order && c != key
    ensures key !in Touch(table, clients, c).order
  {
    if c in table.histories {
      WithoutParts(table.order, c);
      InElements(Without(table.order, c), key);
      InElements(table.order, key);
    }
  }

  /** A call reorders the keys as `Touch` does and rewrites one history only. */
  lemma CallTouches(table: Table, clients: nat, c: Key, maximum: nat, now: real)
    requires 1 <= clients && Tracks(table) && |table.order| <= clients
    ensures var after, touched := Call(table, clients, c, maximum, now).0, Touch(table, clients, c);
      && after.order == touched.order && after.histories.Keys == touched.histories.Keys
      && (forall k :: k in touched.histories && k != c ==> after.histories[k] == touched.histories[k])
      && c in touched.order && Tracks(touched) && Tracks(after)
  {
    TouchKeeps(table, clients, c);
  }

  lemma NewestRemembered(life: Life, j: nat)
    requires life.Valid() && j < |life.requests|
    ensures var key := life.requests[j].key; life.Tracked(key, j + 1) && Behind(life.At(j + 1).order, key) == []
  {
    var key := life.requests[j].key;
    var before := life.At(j);
    TableBounded(life, j);
    CallTouches(before, life.clients, key, life.Maximum(key), life.requests[j].now);
    TouchKeeps(before, life.clients, key);
    var order := life.At(j + 1).order;
    hide *;
    var front := order[..|order| - 1];
    assert order == front + [key];
    LastIsNewest(front, key);
  }

  lemma OthersGrow(life: Life, key: Key, j: nat, i: nat)
    requires j < i <= |life.requests| && life.requests[i - 1].key != key
    ensures life.Others(key, j, i) == life.Others(key, j, i - 1) + {life.requests[i - 1].key}
  {
  }

  /** A key is remembered exactly while fewer than the configured number of distinct other
      keys were called since its last call. */
  lemma {:induction false} RememberedExactly(life: Life, key: Key, j: nat, i: nat)
    requires life.Valid() && i <= |life.requests| && life.LastCall(key, j, i)
    ensures life.Tracked(key, i) <==> |life.Others(key, j, i)| < life.clients
    ensures life.Tracked(key, i) ==> Elements(Behind(life.At(i).order, key)) == life.Others(key, j, i)
  {
    hide Elements, Behind, Touch, Call, Tracks;
    if i == j + 1 {
      NewestRemembered(life, j);
      assert life.Others(key, j, i) == {};
      NoElements();
    } else {
      RememberedExactly(life, key, j, i - 1);
      OthersGrow(life, key, j, i);
      var before, request := life.At(i - 1), life.requests[i - 1];
      TableBounded(life, i - 1);
      TrackedInOrder(before, key);
      TouchOther(before, life.clients, request.key, key, life.Others(key, j, i - 1));
      CallTouches(before, life.clients, request.key, life.Maximum(request.key), request.now);
      TrackedInOrder(life.At(i), key);
    }
  }

  lemma NoElements()
    ensures Elements([]) == {}
  {
  }

  lemma TrackedInOrder(table: Table, key: Key)
    requires Tracks(table)
    ensures key in table.order <==> key in table.histories
  {
  }

  // ---- What the histories count ----

  /** How many times of `history` are later than `cutoff`. */
  function Later(history: seq<real>, cutoff: real): nat {
    if history == [] then 0
    else (if history[0] > cutoff then 1 else 0) + Later(history[1..], cutoff)
  }

  ghost predicate InOrder(history: seq<real>, last: real) {
    && (forall i, j :: 0 <= i < j < |history| ==> history[i] <= history[j])
    && (forall i :: 0 <= i < |history| ==> history[i] <= last)
  }

  lemma {:induction false} LaterAppend(history: seq<real>, x: real, cutoff: real)
    ensures Later(history + [x], cutoff) == Later(history, cutoff) + if x > cutoff then 1 else 0
  {
    if history != [] {
      assert (history + [x])[1..] == history[1..] + [x];
      LaterAppend(history[1..], x, cutoff);
    } else {
      assert ([] + [x])[1..] == [];
    }
  }

  lemma {:induction false} AllLater(history: seq<real>, cutoff: real)
    requires forall i :: 0 <= i < |history| ==> history[i] > cutoff
    ensures Later(history, cutoff) == |history|
  {
    if history == [] {
    } else {
      AllLater(history[1..], cutoff);
    }
  }

  /** Pruning at `now` drops nothing that a later window still counts, and leaves exactly the
      times in the window. */
  lemma {:induction false} PruneCounts(history: seq<real>, last: real, now: real, t: real)
    requires InOrder(history, last) && now <= t
    ensures var pruned := Prune(history, now);
      && InOrder(pruned, last)
      && |pruned| == Later(history, now - WINDOW)
      && Later(pruned, t - WINDOW) == Later(history, t - WINDOW)
  {
    if history != [] && history[0] <= now - WINDOW {
      PruneCounts(history[1..], last, now, t);
    } else {
      AllLater(history, now - WINDOW);
    }
  }

  /** The history that a call leaves for the key it is about. */
  function Updated(history: seq<real>, maximum: nat, now: real): seq<real> {
    var pruned := Prune(history, now);
    if |pruned| >= maximum then pruned else pruned + [now]
  }

  /** The history of `key` before request `i`; none when the key is not tracked. */
  function HistoryOf(life: Life, key: Key, i: nat): seq<real>
    requires i <= |life.requests|
  {
    HistoryIn(life.At(i), key)
  }

  function HistoryIn(table: Table, key: Key): seq<real> {
    if key in table.histories then table.histories[key] else []
  }

  lemma CallHistory(table: Table, clients: nat, c: Key, maximum: nat, now: real, key: Key)
    requires 1 <= clients && Tracks(table) && |table.order| <= clients
    ensures var (after, refused) := Call(table, clients, c, maximum, now);
      && (c == key ==>
            && HistoryIn(after, key) == Updated(HistoryIn(table, key), maximum, now)
            && (refused <==> |Prune(HistoryIn(table, key), now)| >= maximum))
      && (c != key && key in table.histories && key in after.histories ==>
            after.histories[key] == table.histories[key])
  {
    CallTouches(table, clients, c, maximum, now);
    hide Prune, Tracks, Without;
  }

  lemma HistoryStep(life: Life, key: Key, i: nat)
    requires life.Valid() && i < |life.requests|
    ensures var request := life.requests[i];
      && (request.key == key ==>
            && HistoryOf(life, key, i + 1) == Updated(HistoryOf(life, key, i), life.Maximum(key), request.now)
            && (life.Refused(i) <==> |Prune(HistoryOf(life, key, i), request.now)| >= life.Maximum(key)))
      && (request.key != key && life.Tracked(key, i) && life.Tracked(key, i + 1) ==>
            HistoryOf(life, key, i + 1) == HistoryOf(life, key, i))
  {
    TableBounded(life, i);
    hide Call, Updated, Prune;
    CallHistory(life.At(i), life.clients, life.requests[i].key, life.Maximum(life.requests[i].key),
                life.requests[i].now, key);
  }

  /** What `Updated` does to the count of every window ending at `t`. */
  lemma UpdatedCounts(history: seq<real>, last: real, maximum: nat, now: real, t: real)
    requires InOrder(history, last) && last <= now <= t
    ensures var updated := Updated(history, maximum, now);
      && InOrder(updated, now)
      && Later(updated, t - WINDOW) == Later(history, t - WINDOW)
           + if now > t - WINDOW && Later(history, now - WINDOW) < maximum then 1 else 0
  {
    PruneCounts(history, last, now, t);
    LaterAppend(Prune(history, now), now, t - WINDOW);
  }

  lemma AdmittedStep(life: Life, key: Key, e: nat, i: nat, cutoff: real)
    requires e <= i < |life.requests|
    ensures life.Admitted(key, e, i + 1, cutoff) == life.Admitted(key, e, i, cutoff)
      + if life.requests[i].key == key && life.requests[i].now > cutoff && !life.Refused(i) then 1 else 0
  {
  }

  lemma TrackedEarlier(life: Life, key: Key, e: nat, i: nat)
    requires i <= |life.requests| && life.TrackedSince(key, e, i)
    ensures e < i && life.requests[e].key == key
    ensures HistoryOf(life, key, e) == [] && life.Tracked(key, i)
    ensures e + 1 < i ==> life.TrackedSince(key, e, i - 1) && life.Tracked(key, i - 1)
  {
    assert life.Tracked(key, i);
    assert e + 1 < i ==> life.Tracked(key, i - 1);
  }

  lemma TimeMovesOn(life: Life, j: nat, i: nat)
    requires life.Valid() && j <= i < |life.requests|
    ensures life.requests[j].now <= life.requests[i].now
  {
  }

  /** One more request keeps the count of the window ending at `t`. */
  lemma CountsOneMore(life: Life, key: Key, e: nat, i: nat, last: real, t: real)
    requires life.Valid() && e <= i < |life.requests| && last <= life.requests[i].now <= t
    requires life.requests[i].key == key || (life.Tracked(key, i) && life.Tracked(key, i + 1))
    requires InOrder(HistoryOf(life, key, i), last)
    requires Later(HistoryOf(life, key, i), t - WINDOW) == life.Admitted(key, e, i, t - WINDOW)
    ensures InOrder(HistoryOf(life, key, i + 1), life.requests[i].now)
    ensures Later(HistoryOf(life, key, i + 1), t - WINDOW) == life.Admitted(key, e, i + 1, t - WINDOW)
  {
    hide *;
    var request := life.requests[i];
    var history := HistoryOf(life, key, i);
    HistoryStep(life, key, i);
    AdmittedStep(life, key, e, i, t - WINDOW);
    if request.key == key {
      PruneCounts(history, last, request.now, t);
      UpdatedCounts(history, last, life.Maximum(key), request.now, t);
    } else {
      WidenOrder(history, last, request.now);
    }
  }

  /** While a key stays in the table, its history counts its admitted requests in every window
      that ends at or after its last call. */
  lemma {:induction false} HistoryCounts(life: Life, key: Key, e: nat, i: nat, t: real)
    requires life.Valid() && i <= |life.requests| && life.TrackedSince(key, e, i)
    requires life.requests[i - 1].now <= t
    ensures InOrder(HistoryOf(life, key, i), life.requests[i - 1].now)
    ensures Later(HistoryOf(life, key, i), t - WINDOW) == life.Admitted(key, e, i, t - WINDOW)
    decreases i
  {
    hide *;
    TrackedEarlier(life, key, e, i);
    if i == e + 1 {
      NothingCounted(life, key, e, t - WINDOW);
      NoOrder(life.requests[e].now);
      CountsOneMore(life, key, e, e, life.requests[e].now, t);
    } else {
      TimeMovesOn(life, i - 2, i - 1);
      HistoryCounts(life, key, e, i - 1, t);
      CountsOneMore(life, key, e, i - 1, life.requests[i - 2].now, t);
    }
  }

  lemma NoOrder(last: real)
    ensures InOrder([], last)
  {
  }

  lemma WidenOrder(history: seq<real>, last: real, now: real)
    requires last <= now
    ensures InOrder(history, last) ==> InOrder(history, now)
  {
  }

  lemma NothingCounted(life: Life, key: Key, e: nat, cutoff: real)
    requires e <= |life.requests|
    ensures Later([], cutoff) == life.Admitted(key, e, e, cutoff) == 0
  {
  }

  // ---- Refusals ----

  lemma NoHistory(life: Life, key: Key, i: nat, now: real)
    requires i <= |life.requests| && !life.Tracked(key, i)
    ensures HistoryOf(life, key, i) == [] && Prune([], now) == []
  {
  }

  /** A tracked key entered the table at one of its calls. */
  lemma {:induction false} Entered(life: Life, key: Key, i: nat) returns (e: nat)
    requires life.Valid() && i <= |life.requests| && life.Tracked(key, i)
    ensures life.TrackedSince(key, e, i)
  {
    assert 0 < i;
    if life.Tracked(key, i - 1) {
      e := Entered(life, key, i - 1);
    } else {
      e := i - 1;
      EntersByCall(life, key, e);
    }
  }

  lemma EntersByCall(life: Life, key: Key, i: nat)
    requires life.Valid() && i < |life.requests| && !life.Tracked(key, i) && life.Tracked(key, i + 1)
    ensures life.requests[i].key == key
  {
    var before, c := life.At(i), life.requests[i].key;
    TableBounded(life, i);
    CallTouches(before, life.clients, c, life.Maximum(c), life.requests[i].now);
    if c != key {
      NotTouched(before, life.clients, c, key);
    }
  }

  /** In every life: a request of a tracked key is refused exactly when the key's admitted requests
      of the last sixty seconds, since it last entered the table, have reached its maximum. */
  lemma {:induction false} RefusedSinceTracked(life: Life, i: nat, e: nat)
    requires life.Valid() && i < |life.requests| && life.TrackedSince(life.requests[i].key, e, i)
    ensures e < i
    ensures var request := life.requests[i];
      life.Refused(i) <==> life.Admitted(request.key, e, i, request.now - WINDOW) >= life.Maximum(request.key)
  {
    hide *;
    var request := life.requests[i];
    var history := HistoryOf(life, request.key, i);
    TrackedEarlier(life, request.key, e, i);
    HistoryStep(life, request.key, i);
    TimeMovesOn(life, i - 1, i);
    HistoryCounts(life, request.key, e, i, request.now);
    PruneCounts(history, life.requests[i - 1].now, request.now, request.now);
  }

  /** No call of `key` later than `cutoff` was followed, up to request `i`, by so many other keys
      that it was forgotten. */
  ghost predicate KeptSince(life: Life, key: Key, i: nat, cutoff: real)
    requires i <= |life.requests|
  {
    forall j: nat, q: nat :: q <= i && life.LastCall(key, j, q) && life.requests[j].now > cutoff ==>
      |life.Others(key, j, q)| < life.clients
  }

  lemma {:induction false} LastCallBefore(life: Life, key: Key, e: nat, i: nat) returns (j: nat)
    requires e < i <= |life.requests| && life.requests[e].key == key
    ensures life.LastCall(key, j, i)
  {
    if life.requests[i - 1].key == key {
      j := i - 1;
    } else {
      j := LastCallBefore(life, key, e, i - 1);
    }
  }

  /** Before an entry into the table, a kept key made no call later than the cutoff. */
  lemma QuietBefore(life: Life, key: Key, e: nat, cutoff: real)
    requires life.Valid() && e <= |life.requests| && !life.Tracked(key, e) && KeptSince(life, key, e, cutoff)
    ensures forall q :: 0 <= q < e && life.requests[q].key == key ==> life.requests[q].now <= cutoff
  {
    hide life.Tracked, life.Others;
    forall q | 0 <= q < e && life.requests[q].key == key
      ensures life.requests[q].now <= cutoff
    {
      var j := LastCallBefore(life, key, q, e);
      RememberedExactly(life, key, j, e);
      TimeMovesOn(life, q, j);
    }
  }

  lemma {:induction false} AdmittedFrom(life: Life, key: Key, e: nat, i: nat, cutoff: real)
    requires e <= i <= |life.requests|
    requires forall q :: 0 <= q < e && life.requests[q].key == key ==> life.requests[q].now <= cutoff
    ensures life.Admitted(key, 0, i, cutoff) == life.Admitted(key, e, i, cutoff)
    decreases i
  {
    hide life.At, life.Refused;
    if i == 0 {
      assert e == 0;
    } else {
      AdmittedFrom(life, key, Min(e, i - 1), i - 1, cutoff);
    }
  }

  /** The history of a key that was kept counts all its admitted requests in the window. */
  lemma WindowCounted(life: Life, key: Key, i: nat, end: real)
    requires life.Valid() && i < |life.requests| && life.requests[i].now <= end
    requires KeptSince(life, key, i, end - WINDOW)
    ensures Later(HistoryOf(life, key, i), end - WINDOW) == life.Admitted(key, 0, i, end - WINDOW)
    ensures InOrder(HistoryOf(life, key, i), life.requests[i].now)
  {
    hide *;
    var cutoff := end - WINDOW;
    var e := i;
    if life.Tracked(key, i) {
      e := Entered(life, key, i);
      TrackedEarlier(life, key, e, i);
      TimeMovesOn(life, i - 1, i);
      HistoryCounts(life, key, e, i, end);
      WidenOrder(HistoryOf(life, key, i), life.requests[i - 1].now, life.requests[i].now);
      NotBefore(life, key, e, i);
    } else {
      NoHistory(life, key, i, life.requests[i].now);
      NothingCounted(life, key, i, cutoff);
      NoOrder(life.requests[i].now);
    }
    KeptEarlier(life, key, e, i, cutoff);
    QuietBefore(life, key, e, cutoff);
    AdmittedFrom(life, key, e, i, cutoff);
  }

  lemma NotBefore(life: Life, key: Key, e: nat, i: nat)
    requires i <= |life.requests| && life.TrackedSince(key, e, i)
    ensures e <= |life.requests| && !life.Tracked(key, e)
  {
  }

  lemma KeptEarlier(life: Life, key: Key, i: nat, i': nat, cutoff: real)
    requires i <= i' <= |life.requests| && KeptSince(life, key, i', cutoff)
    ensures KeptSince(life, key, i, cutoff)
  {
  }

  /** A request is refused exactly when its key's admitted requests of the last sixty seconds have
      reached its maximum, if no call of those sixty seconds was forgotten. */
  lemma {:induction false} RefusedExactly(life: Life, i: nat)
    requires life.Valid() && i < |life.requests|
    requires KeptSince(life, life.requests[i].key, i, life.requests[i].now - WINDOW)
    ensures var request := life.requests[i];
      life.Refused(i) <==> life.Admitted(request.key, 0, i, request.now - WINDOW) >= life.Maximum(request.key)
  {
    hide *;
    var request := life.requests[i];
    HistoryStep(life, request.key, i);
    WindowCounted(life, request.key, i, request.now);
    PruneCounts(HistoryOf(life, request.key, i), request.now, request.now, request.now);
  }

  lemma {:induction false} LaterBounded(history: seq<real>, early: real, late: real)
    requires early <= late
    ensures Later(history, late) <= Later(history, early)
  {
    if history == [] {
      assert Later(history, late) == 0;
    } else {
      LaterBounded(history[1..], early, late);
    }
  }

  /** A sixty-second window, wherever it ends, admits no more than the maximum, if no call in it
      was forgotten. */
  lemma {:induction false} WindowNeverExceeded(life: Life, key: Key, i: nat, end: real)
    requires life.Valid() && i <= |life.requests| && KeptSince(life, key, i, end - WINDOW)
    requires 0 < i ==> life.requests[i - 1].now <= end
    ensures life.Admitted(key, 0, i, end - WINDOW) <= life.Maximum(key)
    decreases i
  {
    hide *;
    if i == 0 {
      NothingCounted(life, key, 0, end - WINDOW);
    } else {
      KeptEarlier(life, key, i - 1, i, end - WINDOW);
      if 1 < i {
        TimeMovesOn(life, i - 2, i - 1);
      }
      AdmittedStep(life, key, 0, i - 1, end - WINDOW);
      WindowNeverExceeded(life, key, i - 1, end);
      if life.requests[i - 1].key == key {
        var history, now := HistoryOf(life, key, i - 1), life.requests[i - 1].now;
        WindowCounted(life, key, i - 1, end);
        HistoryStep(life, key, i - 1);
        PruneCounts(history, now, now, now);
        LaterBounded(history, now - WINDOW, end - WINDOW);
      }
    }
  }

  /** A key crowded out by others starts over: its next request is admitted whatever the
      window holds, unless nothing is ever admitted. */
  lemma CrowdedOutIsForgotten(life: Life, j: nat, i: nat)
    requires life.Valid() && i < |life.requests| && life.LastCall(life.requests[i].key, j, i)
    requires life.clients <= |life.Others(life.requests[i].key, j, i)|
    ensures life.Refused(i) <==> life.Maximum(life.requests[i].key) == 0
  {
    var key := life.requests[i].key;
    hide *;
    RememberedExactly(life, key, j, i);
    HistoryStep(life, key, i);
    NoHistory(life, key, i, life.requests[i].now);
  }

  /** So a call in the window that is then crowded out lets its key exceed a full window. */
  lemma ForgottenExceeds(life: Life, j: nat, i: nat)
    requires life.Valid() && i < |life.requests| && life.LastCall(life.requests[i].key, j, i)
    requires life.clients <= |life.Others(life.requests[i].key, j, i)|
    requires var request := life.requests[i];
      life.Admitted(request.key, 0, i, request.now - WINDOW) == life.Maximum(request.key) > 0
    ensures var request := life.requests[i];
      !life.Refused(i) && life.Admitted(request.key, 0, i + 1, request.now - WINDOW) > life.Maximum(request.key)
  {
    CrowdedOutIsForgotten(life, j, i);
    hide *;
    AdmittedStep(life, life.requests[i].key, 0, i, life.requests[i].now - WINDOW);
  }

  // ---- When a window is exceeded ----

  /** Request `q` is admitted although `key` has had its maximum since `cutoff`: the table has lost
      the key, or has seen less than the maximum of it since the key last entered. */
  ghost predicate SlipsThrough(life: Life, key: Key, q: nat, cutoff: real)
    requires q < |life.requests|
  {
    && life.requests[q].key == key && life.requests[q].now > cutoff
    && life.Maximum(key) <= life.Admitted(key, 0, q, cutoff)
    && if life.Tracked(key, q) then CountsTooFew(life, key, q) else 0 < life.Maximum(key)
  }

  ghost predicate CountsTooFew(life: Life, key: Key, q: nat)
    requires q < |life.requests|
  {
    exists e: nat :: life.TrackedSince(key, e, q) && CountedSince(life, key, e, q) < life.Maximum(key)
  }

  /** What the table has seen admitted of `key` in the window that ends at request `q`. */
  ghost function CountedSince(life: Life, key: Key, e: nat, q: nat): nat
    requires q < |life.requests|
  {
    if e <= q then life.Admitted(key, e, q, life.requests[q].now - WINDOW) else 0
  }

  /** A request is admitted exactly when the table lost its key, or has seen too little of it. */
  lemma AdmittedExactly(life: Life, q: nat)
    requires life.Valid() && q < |life.requests|
    ensures var key := life.requests[q].key;
      !life.Refused(q) <==> if life.Tracked(key, q) then CountsTooFew(life, key, q) else 0 < life.Maximum(key)
  {
    hide *;
    var key := life.requests[q].key;
    if life.Tracked(key, q) {
      var e := Entered(life, key, q);
      forall e': nat | life.TrackedSince(key, e', q)
        ensures !life.Refused(q) <==> CountedSince(life, key, e', q) < life.Maximum(key)
      {
        RefusedSinceTracked(life, q, e');
        CountsFrom(life, key, e', q);
      }
      AnyEntry(life, key, e, q);
    } else {
      HistoryStep(life, key, q);
      NoHistory(life, key, q, life.requests[q].now);
    }
  }

  lemma CountsFrom(life: Life, key: Key, e: nat, q: nat)
    requires e < q < |life.requests|
    ensures CountedSince(life, key, e, q) == life.Admitted(key, e, q, life.requests[q].now - WINDOW)
  {
  }

  lemma AnyEntry(life: Life, key: Key, e: nat, q: nat)
    requires q < |life.requests| && life.TrackedSince(key, e, q)
    ensures CountedSince(life, key, e, q) < life.Maximum(key) ==> CountsTooFew(life, key, q)
    ensures CountsTooFew(life, key, q) ==>
      exists e': nat :: life.TrackedSince(key, e', q) && CountedSince(life, key, e', q) < life.Maximum(key)
  {
    hide CountedSince, life.TrackedSince;
  }

  /** More than the maximum of a key were admitted since `cutoff` exactly when one of its requests
      since then slips through. */
  lemma {:induction false} ExceededSinceExactly(life: Life, key: Key, i: nat, cutoff: real)
    requires life.Valid() && i <= |life.requests|
    ensures life.Admitted(key, 0, i, cutoff) > life.Maximum(key) <==>
      exists q: nat :: q < i && SlipsThrough(life, key, q, cutoff)
    decreases i
  {
    hide *;
    if i == 0 {
      NothingCounted(life, key, 0, cutoff);
    } else {
      ExceededSinceExactly(life, key, i - 1, cutoff);
      AdmittedStep(life, key, 0, i - 1, cutoff);
      AdmittedExactly(life, i - 1);
      SlipsIf(life, key, i - 1, cutoff);
    }
  }

  lemma {:induction false} AdmittedAntitone(life: Life, key: Key, lo: nat, hi: nat, early: real, late: real)
    requires lo <= hi <= |life.requests| && early <= late
    ensures life.Admitted(key, lo, hi, late) <= life.Admitted(key, lo, hi, early)
    decreases hi
  {
    hide life.At, life.Refused;
    if lo == hi {
      assert life.Admitted(key, lo, hi, late) == 0;
    } else {
      AdmittedAntitone(life, key, lo, hi - 1, early, late);
    }
  }

  /** The sixty seconds that end at `end`, after request `i - 1`, hold more than the maximum. */
  ghost predicate Exceeded(life: Life, key: Key, i: nat, end: real) {
    && i <= |life.requests| && (0 < i ==> life.requests[i - 1].now <= end)
    && life.Admitted(key, 0, i, end - WINDOW) > life.Maximum(key)
  }

  /** Request `q` slips through in the window that ends with itself. */
  ghost predicate Slips(life: Life, key: Key, q: nat) {
    q < |life.requests| && SlipsThrough(life, key, q, life.requests[q].now - WINDOW)
  }

  /** Some sixty-second window of a key is exceeded exactly when some request of it finds the
      maximum already admitted in the last sixty seconds, while the table has lost the key or has
      seen less than the maximum of it in those sixty seconds since it last entered. */
  lemma WindowExceededExactly(life: Life, key: Key)
    requires life.Valid()
    ensures (exists i: nat, end: real :: Exceeded(life, key, i, end)) <==> exists q: nat :: Slips(life, key, q)
  {
    hide *;
    if i: nat, end: real :| Exceeded(life, key, i, end) {
      var q := SlipsInside(life, key, i, end);
    }
    if q: nat :| Slips(life, key, q) {
      SlipExceeds(life, key, q);
    }
  }

  lemma SlipExceeds(life: Life, key: Key, q: nat)
    requires life.Valid() && Slips(life, key, q)
    ensures q < |life.requests| && Exceeded(life, key, q + 1, life.requests[q].now)
  {
    ExceededSinceExactly(life, key, q + 1, life.requests[q].now - WINDOW);
    hide SlipsThrough, life.Admitted;
  }

  lemma SlipsInside(life: Life, key: Key, i: nat, end: real) returns (q: nat)
    requires life.Valid() && Exceeded(life, key, i, end)
    ensures Slips(life, key, q)
  {
    hide SlipsThrough, life.Admitted, life.Tracked, CountsTooFew;
    ExceededSinceExactly(life, key, i, end - WINDOW);
    q :| q < i && SlipsThrough(life, key, q, end - WINDOW);
    TimeMovesOn(life, q, i - 1);
    AdmittedAntitone(life, key, 0, q, life.requests[q].now - WINDOW, end - WINDOW);
    SlipsIf(life, key, q, end - WINDOW);
    SlipsIf(life, key, q, life.requests[q].now - WINDOW);
  }

  lemma SlipsIf(life: Life, key: Key, q: nat, cutoff: real)
    requires q < |life.requests|
    ensures SlipsThrough(life, key, q, cutoff) <==>
      && life.requests[q].key == key && life.requests[q].now > cutoff
      && life.Maximum(key) <= life.Admitted(key, 0, q, cutoff)
      && if life.Tracked(key, q) then CountsTooFew(life, key, q) else 0 < life.Maximum(key)
  {
    hide CountsTooFew, life.Tracked, life.Admitted;
  }

  const FIRST: Key := Key("login", "10.0.0.1")
  const SECOND: Key := Key("login", "10.0.0.2")

  /** A limiter of one client and one request a minute: another client's call comes in between. */
  function CrowdedLife(): Life {
    Life(1, (bucket: string) => 1, [Request(FIRST, 0.0), Request(SECOND, 1.0), Request(FIRST, 2.0)])
  }

  /** The first client is admitted twice within two seconds. */
  lemma WindowExceeded()
    ensures CrowdedLife().Valid() && CrowdedLife().LastCall(FIRST, 0, 2)
    ensures CrowdedLife().Admitted(FIRST, 0, 2, 2.0 - WINDOW) == CrowdedLife().Maximum(FIRST) == 1
    ensures CrowdedLife().Admitted(FIRST, 0, 3, 2.0 - WINDOW) == 2
  {
    var life := CrowdedLife();
    assert life.requests[1].key != FIRST;
    assert life.Others(FIRST, 0, 2) == {SECOND};
    assert life.At(0) == EMPTY && Prune([], 0.0) == [];
    assert !life.Refused(0);
    assert life.Admitted(FIRST, 0, 0, 2.0 - WINDOW) == 0;
    assert life.Admitted(FIRST, 0, 1, 2.0 - WINDOW) == 1;
    assert life.Admitted(FIRST, 0, 2, 2.0 - WINDOW) == 1;
    ForgottenExceeds(life, 0, 2);
    hide life.Refused, life.At;
    assert life.Admitted(FIRST, 0, 3, 2.0 - WINDOW) == 2;
  }
}
