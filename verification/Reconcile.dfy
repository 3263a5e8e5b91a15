/** Positions against resting sell stops (loops/reconcile.py `build_view`, loops/tick.py watches 4, 5 and 6). */
module Reconcile {
  import opened Clock

  datatype Leg = Leg(instruction: string, symbol: string)

  datatype Order = Order(id: int, status: string, orderType: string, enteredAt: Time, quantity: int, legs: seq<Leg>)

  datatype Position = Position(symbol: string, quantity: int)

  const RESTING := {"WORKING", "QUEUED", "ACCEPTED", "PENDING_ACTIVATION", "AWAITING_STOP_CONDITION"}
  const STOP_TYPES := {"STOP", "STOP_LIMIT"}

  function SymbolOf(o: Order): string { if o.legs == [] then "" else o.legs[0].symbol }

  predicate IsSellStop(o: Order) {
    && o.status in RESTING && o.orderType in STOP_TYPES
    && |o.legs| == 1 && "SELL" <= o.legs[0].instruction
  }

  /** Which orders are resting sell stops: a stop or stop-limit that is working, queued, accepted or waiting, with a single
      leg whose instruction begins with SELL. */
  lemma SellStopsAre(o: Order)
    ensures IsSellStop(o) <==>
              && (o.orderType == "STOP" || o.orderType == "STOP_LIMIT")
              && (o.status == "WORKING" || o.status == "QUEUED" || o.status == "ACCEPTED" || o.status == "PENDING_ACTIVATION"
                  || o.status == "AWAITING_STOP_CONDITION")
              && |o.legs| == 1 && |o.legs[0].instruction| >= 4 && o.legs[0].instruction[..4] == "SELL"
    ensures IsSellStop(o) ==> SymbolOf(o) == o.legs[0].symbol
  {
  }

  // ----- grouping and sorting -----

  /** The resting sell stops on a symbol, in the order they were read. */
  function StopsOn(orders: seq<Order>, symbol: string): (r: seq<Order>)
    ensures forall o :: o in r <==> o in orders && IsSellStop(o) && SymbolOf(o) == symbol
  {
    if orders == [] then []
    else
      var init, last := StopsOn(orders[..|orders| - 1], symbol), orders[|orders| - 1];
      if IsSellStop(last) && SymbolOf(last) == symbol then init + [last] else init
  }

  /** Earlier entry first, ties by order id. */
  predicate Before(a: Order, b: Order) {
    a.enteredAt < b.enteredAt || (a.enteredAt == b.enteredAt && a.id <= b.id)
  }

  ghost predicate Sorted(rows: seq<Order>) { forall i, j :: 0 <= i < j < |rows| ==> Before(rows[i], rows[j]) }

  lemma InsertKeepsSorted(out: seq<Order>, x: Order, i: nat)
    requires Sorted(out) && i <= |out|
    requires i > 0 ==> Before(out[i - 1], x)
    requires i < |out| ==> !Before(out[i], x)
    ensures Sorted(out[..i] + [x] + out[i..])
  {
    var r := out[..i] + [x] + out[i..];
    forall j, k | 0 <= j < k < |r| ensures Before(r[j], r[k]) {
      if j == i {
        assert r[k] == out[k - 1] && (k - 1 == i || Before(out[i], out[k - 1]));
      } else if k == i {
        assert r[j] == out[j] && (j == i - 1 || Before(out[j], out[i - 1]));
      } else {
        assert r[j] == out[if j < i then j else j - 1] && r[k] == out[if k < i then k else k - 1];
      }
    }
  }

  lemma InsertKeepsRows(out: seq<Order>, x: Order, i: nat)
    requires i <= |out|
    ensures multiset(out[..i] + [x] + out[i..]) == multiset(out) + multiset{x}
  {
    assert out == out[..i] + out[i..];
  }

  /** A stable sort by entry time and id. */
  method SortRows(rows: seq<Order>) returns (out: seq<Order>)
    ensures Sorted(out) && multiset(out) == multiset(rows)
  {
    hide Sorted;
    out := [];
    assert Sorted([]) by {
      NothingIsSorted();
    }
    for k := 0 to |rows|
      invariant Sorted(out) && multiset(out) == multiset(rows[..k])
    {
      var i := |out|;
      while i > 0 && !Before(out[i - 1], rows[k])
        invariant 0 <= i <= |out|
        invariant i < |out| ==> !Before(out[i], rows[k])
      {
        i := i - 1;
      }
      assert rows[..k + 1] == rows[..k] + [rows[k]];
      InsertKeepsSorted(out, rows[k], i);
      InsertKeepsRows(out, rows[k], i);
      out := out[..i] + [rows[k]] + out[i..];
    }
    assert rows[..|rows|] == rows;
  }

  lemma NothingIsSorted()
    ensures Sorted([])
  {
  }

  /** symbol -> its sell stops, for the symbols that have any. */
  ghost predicate Groups(groups: map<string, seq<Order>>, orders: seq<Order>) {
    && (forall s :: s in groups <==> StopsOn(orders, s) != [])
    && (forall s :: s in groups ==> multiset(groups[s]) == multiset(StopsOn(orders, s)))
  }

  method GroupStops(orders: seq<Order>) returns (groups: map<string, seq<Order>>)
    ensures Groups(groups, orders) && forall s :: s in groups ==> groups[s] == StopsOn(orders, s)
  {
    groups := map[];
    for k := 0 to |orders|
      invariant forall s :: s in groups <==> StopsOn(orders[..k], s) != []
      invariant forall s :: s in groups ==> groups[s] == StopsOn(orders[..k], s)
    {
      var o := orders[k];
      assert orders[..k + 1][..k] == orders[..k];
      if IsSellStop(o) {
        groups := groups[SymbolOf(o) := (if SymbolOf(o) in groups then groups[SymbolOf(o)] else []) + [o]];
      }
    }
    assert orders[..|orders|] == orders;
  }

  // ----- the view -----

  /** What is held: long positions only, a later row for a symbol replacing an earlier one. */
  function Held(positions: seq<Position>): map<string, int> {
    if positions == [] then map[]
    else
      var init, last := Held(positions[..|positions| - 1]), positions[|positions| - 1];
      if last.quantity > 0 then init[last.symbol := last.quantity] else init
  }

  datatype View = View(
    stops: map<string, Order>, duplicates: map<string, seq<Order>>,
    naked: set<string>, partial: map<string, (int, int)>, orphaned: map<string, Order>)

  /** The symbols' earliest stops, the symbols with several, and the findings. */
  function ViewOf(held: map<string, int>, rows: map<string, seq<Order>>): View
    requires forall s :: s in rows ==> rows[s] != []
  {
    var stops := map s | s in rows :: rows[s][0];
    View(
      stops,
      map s | s in rows && |rows[s]| > 1 :: rows[s],
      set s | s in held && s !in stops,
      map s | s in held && s in stops && stops[s].quantity != held[s] :: (held[s], stops[s].quantity),
      map s | s in stops && s !in held :: stops[s])
  }

  /** What the view says of one symbol, in terms of its sell stops: the earliest stop, all of them in order when there
      are several, and the findings that their names promise. */
  ghost predicate SymbolMeans(v: View, held: map<string, int>, found: seq<Order>, s: string) {
    && (s in v.stops <==> found != [])
    && (s in v.stops ==>
          && v.stops[s] in found
          && forall o :: o in found ==>
               v.stops[s].enteredAt < o.enteredAt || (v.stops[s].enteredAt == o.enteredAt && v.stops[s].id <= o.id))
    && (s in v.duplicates <==> |found| > 1)
    && (s in v.duplicates ==> Sorted(v.duplicates[s]) && multiset(v.duplicates[s]) == multiset(found))
    && (s in v.naked <==> s in held && found == [])
    && (s in v.partial <==> s in held && s in v.stops && v.stops[s].quantity != held[s])
    && (s in v.partial ==> v.partial[s] == (held[s], v.stops[s].quantity))
    && (s in v.orphaned <==> s in v.stops && s !in held)
    && (s in v.orphaned ==> v.orphaned[s] == v.stops[s])
  }

  ghost predicate ViewMeans(v: View, held: map<string, int>, orders: seq<Order>) {
    forall s :: SymbolMeans(v, held, StopsOn(orders, s), s)
  }

  lemma EarliestIsFirst(rows: seq<Order>, found: seq<Order>)
    requires rows != [] && Sorted(rows) && multiset(rows) == multiset(found)
    ensures rows[0] in found
    ensures forall o :: o in found ==> rows[0].enteredAt < o.enteredAt || (rows[0].enteredAt == o.enteredAt && rows[0].id <= o.id)
  {
    assert rows[0] in multiset(rows);
    forall o | o in found
      ensures rows[0].enteredAt < o.enteredAt || (rows[0].enteredAt == o.enteredAt && rows[0].id <= o.id)
    {
      assert o in multiset(found);
      assert o in rows;
      var k :| 0 <= k < |rows| && rows[k] == o;
    }
  }

  lemma ViewOfSymbol(held: map<string, int>, rows: map<string, seq<Order>>, found: seq<Order>, s: string)
    requires forall t :: t in rows ==> rows[t] != []
    requires s in rows <==> found != []
    requires s in rows ==> Sorted(rows[s]) && multiset(rows[s]) == multiset(found)
    ensures SymbolMeans(ViewOf(held, rows), held, found, s)
  {
    hide Before, Sorted;
    if s in rows {
      EarliestIsFirst(rows[s], found);
      SameSize(rows[s], found);
    }
  }

  lemma ViewOfMeans(held: map<string, int>, orders: seq<Order>, rows: map<string, seq<Order>>)
    requires Groups(rows, orders) && forall s :: s in rows ==> rows[s] != [] && Sorted(rows[s])
    ensures ViewMeans(ViewOf(held, rows), held, orders)
  {
    hide StopsOn, Before, Sorted, ViewOf, SymbolMeans;
    forall s ensures SymbolMeans(ViewOf(held, rows), held, StopsOn(orders, s), s) {
      ViewOfSymbol(held, rows, StopsOn(orders, s), s);
    }
  }

  lemma SameSize(a: seq<Order>, b: seq<Order>)
    requires multiset(a) == multiset(b)
    ensures |a| == |b|
  {
    assert |multiset(a)| == |a| && |multiset(b)| == |b|;
  }

  /** No naked, partial, orphan or duplicate-stop finding. */
  predicate NoFinding(v: View) {
    v.naked == {} && v.partial == map[] && v.orphaned == map[] && v.duplicates == map[]
  }

  /** Each held symbol has exactly one resting sell stop, for its own quantity, and no other symbol has any. */
  ghost predicate CleanBook(held: map<string, int>, orders: seq<Order>) {
    && (forall s :: s in held ==> |StopsOn(orders, s)| == 1 && StopsOn(orders, s)[0].quantity == held[s])
    && (forall s :: s !in held ==> StopsOn(orders, s) == [])
  }

  lemma SingletonRows(a: seq<Order>, b: seq<Order>)
    requires multiset(a) == multiset(b) && |a| == 1
    ensures |b| == 1 && a[0] == b[0]
  {
    SameSize(a, b);
    assert a[0] in multiset(a);
    assert b[0] in multiset(b);
  }

  /** What silence says of one symbol. */
  lemma SilentSymbol(held: map<string, int>, rows: map<string, seq<Order>>, s: string)
    requires (forall t :: t in rows ==> rows[t] != []) && NoFinding(ViewOf(held, rows))
    ensures s in held <==> s in rows
    ensures s in rows ==> |rows[s]| == 1 && rows[s][0].quantity == held[s]
  {
    var v := ViewOf(held, rows);
    assert s in held && s !in rows ==> s in v.naked;
    assert s in rows && s !in held ==> s in v.orphaned;
    assert s in rows && |rows[s]| > 1 ==> s in v.duplicates;
    assert s in held && s in rows && rows[s][0].quantity != held[s] ==> s in v.partial;
  }

  lemma SilentSymbolIsClean(held: map<string, int>, orders: seq<Order>, rows: map<string, seq<Order>>, s: string)
    requires Groups(rows, orders) && (forall t :: t in rows ==> rows[t] != []) && NoFinding(ViewOf(held, rows))
    ensures s in held ==> |StopsOn(orders, s)| == 1 && StopsOn(orders, s)[0].quantity == held[s]
    ensures s !in held ==> StopsOn(orders, s) == []
  {
    SilentSymbol(held, rows, s);
    if s in rows {
      SingletonRows(rows[s], StopsOn(orders, s));
    }
  }

  lemma CleanSymbolIsSilent(held: map<string, int>, orders: seq<Order>, rows: map<string, seq<Order>>, s: string)
    requires Groups(rows, orders) && (forall t :: t in rows ==> rows[t] != []) && CleanBook(held, orders)
    ensures s in held <==> s in rows
    ensures s in rows ==> |rows[s]| == 1 && rows[s][0].quantity == held[s]
  {
    if s in held {
      SingletonRows(StopsOn(orders, s), rows[s]);
    }
  }

  /** The four watches stay silent exactly on a clean book. */
  lemma SilentExactlyWhenClean(held: map<string, int>, orders: seq<Order>, rows: map<string, seq<Order>>)
    requires Groups(rows, orders) && forall s :: s in rows ==> rows[s] != []
    ensures NoFinding(ViewOf(held, rows)) <==> CleanBook(held, orders)
  {
    hide NoFinding, ViewOf, Groups;
    if NoFinding(ViewOf(held, rows)) {
      forall s
        ensures s in held ==> |StopsOn(orders, s)| == 1 && StopsOn(orders, s)[0].quantity == held[s]
        ensures s !in held ==> StopsOn(orders, s) == []
      {
        SilentSymbolIsClean(held, orders, rows, s);
      }
    }
    if CleanBook(held, orders) {
      CleanIsSilent(held, orders, rows);
    }
  }

  lemma CleanIsSilent(held: map<string, int>, orders: seq<Order>, rows: map<string, seq<Order>>)
    requires Groups(rows, orders) && (forall s :: s in rows ==> rows[s] != []) && CleanBook(held, orders)
    ensures NoFinding(ViewOf(held, rows))
  {
    var v := ViewOf(held, rows);
    forall s ensures (s in held <==> s in rows) && (s in rows ==> |rows[s]| == 1 && rows[s][0].quantity == held[s]) {
      CleanSymbolIsSilent(held, orders, rows, s);
    }
    assert v.naked == {} && v.duplicates == map[] && v.partial == map[] && v.orphaned == map[];
  }

  // ----- firing stops -----

  /** Shares a list of orders would sell in a symbol. */
  function Sold(orders: seq<Order>, symbol: string): int {
    if orders == [] then 0
    else
      var last := orders[|orders| - 1];
      Sold(orders[..|orders| - 1], symbol) + (if IsSellStop(last) && SymbolOf(last) == symbol then last.quantity else 0)
  }

  /** `fired` picks some of the orders, each at most once. */
  ghost predicate Picks(fired: seq<Order>, orders: seq<Order>) { multiset(fired) <= multiset(orders) }

  lemma {:induction false} SoldIsStopsOn(orders: seq<Order>, symbol: string)
    ensures Sold(orders, symbol) == Sold(StopsOn(orders, symbol), symbol)
  {
    if orders != [] {
      var init, last := orders[..|orders| - 1], orders[|orders| - 1];
      SoldIsStopsOn(init, symbol);
      var rows := StopsOn(init, symbol);
      assert (rows + [last])[..|rows|] == rows;
    }
  }

  lemma {:induction false} StopsOnCounts(orders: seq<Order>, symbol: string, o: Order)
    ensures multiset(StopsOn(orders, symbol))[o] == if IsSellStop(o) && SymbolOf(o) == symbol then multiset(orders)[o] else 0
  {
    if orders != [] {
      var init, last := orders[..|orders| - 1], orders[|orders| - 1];
      assert orders == init + [last];
      StopsOnCounts(init, symbol, o);
    }
  }

  lemma PickedStops(fired: seq<Order>, orders: seq<Order>, symbol: string)
    requires Picks(fired, orders)
    ensures multiset(StopsOn(fired, symbol)) <= multiset(StopsOn(orders, symbol))
  {
    forall o ensures multiset(StopsOn(fired, symbol))[o] <= multiset(StopsOn(orders, symbol))[o] {
      StopsOnCounts(fired, symbol, o);
      StopsOnCounts(orders, symbol, o);
    }
  }

  /** On a clean book, whichever stops fire, no position goes below zero: each held symbol sells nothing or all it has,
      and nothing else sells. */
  lemma FiringNeverShorts(held: map<string, int>, orders: seq<Order>, fired: seq<Order>, symbol: string)
    requires CleanBook(held, orders) && Picks(fired, orders)
    ensures symbol in held ==> Sold(fired, symbol) == 0 || Sold(fired, symbol) == held[symbol]
    ensures symbol !in held ==> Sold(fired, symbol) == 0
  {
    PickedStops(fired, orders, symbol);
    SoldIsStopsOn(fired, symbol);
    var all, some := StopsOn(orders, symbol), StopsOn(fired, symbol);
    assert multiset(all) == multiset(some) + (multiset(all) - multiset(some));
    assert |some| == |multiset(some)| <= |multiset(all)| == |all|;
    if |some| == 1 {
      assert some[0] in multiset(some);
      assert some[0] in multiset(all) && all == [all[0]];
      assert some[0] == all[0] && some[..0] == [];
    }
  }

  ghost predicate DistinctSymbols(positions: seq<Position>) {
    forall i, j :: 0 <= i < j < |positions| ==> positions[i].symbol != positions[j].symbol
  }

  lemma {:induction false} HeldIsThePosition(positions: seq<Position>, k: nat)
    requires DistinctSymbols(positions) && k < |positions|
    ensures positions[k].quantity > 0 ==>
              positions[k].symbol in Held(positions) && Held(positions)[positions[k].symbol] == positions[k].quantity
    ensures positions[k].quantity <= 0 ==> positions[k].symbol !in Held(positions)
  {
    var last := |positions| - 1;
    if k < last {
      HeldIsThePosition(positions[..last], k);
    } else {
      HeldKnowsOnlyPositions(positions[..last], positions[k].symbol);
    }
  }

  lemma {:induction false} HeldKnowsOnlyPositions(positions: seq<Position>, symbol: string)
    requires forall i :: 0 <= i < |positions| ==> positions[i].symbol != symbol
    ensures symbol !in Held(positions)
  {
    if positions != [] {
      HeldKnowsOnlyPositions(positions[..|positions| - 1], symbol);
    }
  }

  /** No accidental short: when the watches are silent, firing any of the resting stops leaves every position that was
      not negative not negative. */
  lemma SilentBookCannotGoShort(
      positions: seq<Position>, orders: seq<Order>, rows: map<string, seq<Order>>, fired: seq<Order>, k: nat)
    requires DistinctSymbols(positions) && Groups(rows, orders) && (forall s :: s in rows ==> rows[s] != [])
    requires NoFinding(ViewOf(Held(positions), rows)) && Picks(fired, orders) && k < |positions|
    ensures positions[k].quantity >= 0 ==> positions[k].quantity - Sold(fired, positions[k].symbol) >= 0
    ensures positions[k].quantity < 0 ==> Sold(fired, positions[k].symbol) == 0
  {
    SilentExactlyWhenClean(Held(positions), orders, rows);
    HeldIsThePosition(positions, k);
    FiringNeverShorts(Held(positions), orders, fired, positions[k].symbol);
  }

  // ----- the stop count -----

  function SellStops(orders: seq<Order>): nat {
    if orders == [] then 0 else SellStops(orders[..|orders| - 1]) + if IsSellStop(orders[|orders| - 1]) then 1 else 0
  }

  /** Sell stops counted symbol by symbol. */
  ghost function CountOver(orders: seq<Order>, keys: set<string>): nat {
    if keys == {} then 0 else var s :| s in keys; |StopsOn(orders, s)| + CountOver(orders, keys - {s})
  }

  ghost function ExtraTotal(duplicates: map<string, seq<Order>>, keys: set<string>): int
    requires keys <= duplicates.Keys
  {
    if keys == {} then 0 else var s :| s in keys; |duplicates[s]| - 1 + ExtraTotal(duplicates, keys - {s})
  }

  /** The reported stop count: one per symbol plus the extras. */
  ghost function RestingStopCount(v: View): int { |v.stops| + ExtraTotal(v.duplicates, v.duplicates.Keys) }

  lemma {:induction false} CountRemove(orders: seq<Order>, keys: set<string>, s: string)
    requires s in keys
    ensures CountOver(orders, keys) == |StopsOn(orders, s)| + CountOver(orders, keys - {s})
    decreases keys
  {
    var t :| t in keys && CountOver(orders, keys) == |StopsOn(orders, t)| + CountOver(orders, keys - {t});
    if t != s {
      CountRemove(orders, keys - {t}, s);
      CountRemove(orders, keys - {s}, t);
      assert keys - {t} - {s} == keys - {s} - {t};
    }
  }

  lemma {:induction false} ExtraRemove(rows: map<string, seq<Order>>, keys: set<string>, s: string)
    requires keys <= rows.Keys && s in keys
    ensures ExtraTotal(rows, keys) == |rows[s]| - 1 + ExtraTotal(rows, keys - {s})
    decreases keys
  {
    var t :| t in keys && ExtraTotal(rows, keys) == |rows[t]| - 1 + ExtraTotal(rows, keys - {t});
    if t != s {
      ExtraRemove(rows, keys - {t}, s);
      ExtraRemove(rows, keys - {s}, t);
      assert keys - {t} - {s} == keys - {s} - {t};
    }
  }

  lemma {:induction false} CountOneMore(orders: seq<Order>, o: Order, keys: set<string>)
    ensures CountOver(orders + [o], keys) == CountOver(orders, keys) + if IsSellStop(o) && SymbolOf(o) in keys then 1 else 0
    decreases keys
  {
    assert (orders + [o])[..|orders|] == orders;
    if keys != {} {
      var s :| s in keys;
      CountRemove(orders, keys, s);
      CountRemove(orders + [o], keys, s);
      CountOneMore(orders, o, keys - {s});
    }
  }

  lemma {:induction false} CountNothing(keys: set<string>)
    ensures CountOver([], keys) == 0
    decreases keys
  {
    if keys != {} {
      var s :| s in keys;
      CountRemove([], keys, s);
      CountNothing(keys - {s});
    }
  }

  lemma {:induction false} CountIsSellStops(orders: seq<Order>, keys: set<string>)
    requires forall o :: o in orders && IsSellStop(o) ==> SymbolOf(o) in keys
    ensures CountOver(orders, keys) == SellStops(orders)
  {
    if orders == [] {
      CountNothing(keys);
    } else {
      var init, last := orders[..|orders| - 1], orders[|orders| - 1];
      assert orders == init + [last];
      CountIsSellStops(init, keys);
      CountOneMore(init, last, keys);
    }
  }

  lemma {:induction false} OnePlusExtras(
      orders: seq<Order>, rows: map<string, seq<Order>>, dups: map<string, seq<Order>>, keys: set<string>)
    requires Groups(rows, orders) && keys <= rows.Keys
    requires dups == map s | s in rows && |rows[s]| > 1 :: rows[s]
    ensures |keys| + ExtraTotal(dups, keys * dups.Keys) == CountOver(orders, keys)
    decreases keys
  {
    if keys != {} {
      var s :| s in keys;
      OnePlusExtras(orders, rows, dups, keys - {s});
      CountRemove(orders, keys, s);
      SameSize(rows[s], StopsOn(orders, s));
      if s in dups {
        ExtraRemove(dups, keys * dups.Keys, s);
        assert keys * dups.Keys - {s} == (keys - {s}) * dups.Keys;
      } else {
        assert keys * dups.Keys == (keys - {s}) * dups.Keys;
      }
    } else {
      assert keys * dups.Keys == {};
    }
  }

  /** The reported count is always the number of resting sell stops, duplicates included. */
  lemma StopCountIsExact(held: map<string, int>, orders: seq<Order>, rows: map<string, seq<Order>>)
    requires Groups(rows, orders) && forall s :: s in rows ==> rows[s] != []
    ensures RestingStopCount(ViewOf(held, rows)) == SellStops(orders)
  {
    var v := ViewOf(held, rows);
    assert v.stops.Keys == rows.Keys;
    assert |v.stops| == |v.stops.Keys|;
    OnePlusExtras(orders, rows, v.duplicates, rows.Keys);
    assert rows.Keys * v.duplicates.Keys == v.duplicates.Keys;
    forall o | o in orders && IsSellStop(o) ensures SymbolOf(o) in rows.Keys {
      assert o in StopsOn(orders, SymbolOf(o));
    }
    CountIsSellStops(orders, rows.Keys);
  }

  // ----- the loop -----

  /** Sort every symbol's rows. */
  method SortGroups(groups: map<string, seq<Order>>) returns (sorted: map<string, seq<Order>>)
    ensures sorted.Keys == groups.Keys
    ensures forall s :: s in sorted ==> Sorted(sorted[s]) && multiset(sorted[s]) == multiset(groups[s])
  {
    var todo := groups.Keys;
    sorted := map[];
    while todo != {}
      invariant todo <= groups.Keys && sorted.Keys == groups.Keys - todo
      invariant forall s :: s in sorted ==> Sorted(sorted[s]) && multiset(sorted[s]) == multiset(groups[s])
      decreases todo
    {
      var s :| s in todo;
      var out := SortRows(groups[s]);
      sorted := sorted[s := out];
      todo := todo - {s};
    }
  }

  /** The view the loop builds: it means what it says of the orders, it has no finding exactly on a clean book, and its
      stop count is the number of resting sell stops. */
  method BuildView(positions: seq<Position>, orders: seq<Order>) returns (v: View)
    ensures ViewMeans(v, Held(positions), orders)
    ensures NoFinding(v) <==> CleanBook(Held(positions), orders)
    ensures RestingStopCount(v) == SellStops(orders)
  {
    hide ViewMeans, NoFinding, CleanBook, RestingStopCount, SellStops, Sorted, ViewOf, Held, StopsOn;
    var groups := GroupStops(orders);
    var rows := SortGroups(groups);
    forall s | s in rows ensures rows[s] != [] {
      SameSize(rows[s], groups[s]);
    }
    v := ViewOf(Held(positions), rows);
    ViewOfMeans(Held(positions), orders, rows);
    SilentExactlyWhenClean(Held(positions), orders, rows);
    StopCountIsExact(Held(positions), orders, rows);
  }
}
