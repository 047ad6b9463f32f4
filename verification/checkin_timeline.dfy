/** The check-in timeline of a trip: the carrier's check-ins, newest first, each with its label,
    icon and colour, the newest one marked "Último" and every one but the last joined to the
    next by a connector line. */
module CheckInTimeline {
  import opened Common
  import opened Trips
  import StatusLabels

  datatype Icon = PackageIcon | TruckIcon | MapPinIcon | CheckCircleIcon | ClockIcon

  const FallbackColor := "bg-gray-100 text-gray-600"

  /** `checkInIcons[estado] || Clock` */
  function StateIcon(estado: string): (icon: Icon)
    ensures estado in StatusLabels.KnownSubStatuses <==> icon != ClockIcon
  {
    match estado
    case "llegue_a_cargar" => PackageIcon
    case "cargado_saliendo" => TruckIcon
    case "en_camino" => TruckIcon
    case "llegue_a_destino" => MapPinIcon
    case "descargado" => CheckCircleIcon
    case _ => ClockIcon
  }

  /** `checkInLabels[estado] || estado` */
  function StateLabel(estado: string): (text: string)
    ensures estado !in StatusLabels.KnownSubStatuses ==> text == estado
    ensures estado in StatusLabels.KnownSubStatuses ==> text != "" && text != estado
  {
    match estado
    case "llegue_a_cargar" => "Llegué a cargar"
    case "cargado_saliendo" => "Cargado, saliendo"
    case "en_camino" => "En camino"
    case "llegue_a_destino" => "Llegué a destino"
    case "descargado" => "Descargado"
    case _ => estado
  }

  /** `checkInColors[estado] || 'bg-gray-100 text-gray-600'` */
  function StateColor(estado: string): (color: string)
    ensures estado in StatusLabels.KnownSubStatuses <==> color != FallbackColor
  {
    match estado
    case "llegue_a_cargar" => "bg-blue-100 text-blue-600"
    case "cargado_saliendo" => "bg-indigo-100 text-indigo-600"
    case "en_camino" => "bg-purple-100 text-purple-600"
    case "llegue_a_destino" => "bg-orange-100 text-orange-600"
    case "descargado" => "bg-green-100 text-green-600"
    case _ => FallbackColor
  }

  // ---------------------------------------------------------------------------
  // Ordering

  /** Timestamps never increase from one entry to a later one. */
  ghost predicate NewestFirst(s: seq<CheckIn>) {
    forall i, j :: 0 <= i < j < |s| ==> s[i].timestamp >= s[j].timestamp
  }

  /** The check-ins of `s` stamped exactly `t`, in their order in `s`. A sort is stable when it
      keeps every one of these subsequences as it was in the input. */
  function AtTime(s: seq<CheckIn>, t: int): seq<CheckIn>
  {
    if |s| == 0 then []
    else (if s[0].timestamp == t then [s[0]] else []) + AtTime(s[1..], t)
  }

  lemma {:induction false} AtTimeMembers(s: seq<CheckIn>, t: int, c: CheckIn)
    ensures c in AtTime(s, t) <==> c in s && c.timestamp == t
    decreases |s|
  {
    if |s| > 0 {
      AtTimeMembers(s[1..], t, c);
      assert s == [s[0]] + s[1..];
    }
  }

  /** `r` is what a stable sort by descending timestamp makes of `s`. */
  ghost predicate IsStableNewestFirst(r: seq<CheckIn>, s: seq<CheckIn>) {
    NewestFirst(r) && forall t :: AtTime(r, t) == AtTime(s, t)
  }

  /** Places `c` before the first check-in that is not strictly newer, so that `c` precedes
      every check-in with its own timestamp. */
  function Insert(c: CheckIn, s: seq<CheckIn>): (r: seq<CheckIn>)
    ensures multiset(r) == multiset(s) + multiset{c}
    ensures |r| == |s| + 1
  {
    if |s| == 0 || s[0].timestamp <= c.timestamp then [c] + s
    else
      assert s == [s[0]] + s[1..];
      [s[0]] + Insert(c, s[1..])
  }

  /** A check-in no older than any of a newest-first list may be put in front of it. */
  lemma NewestFirstCons(x: CheckIn, s: seq<CheckIn>)
    requires NewestFirst(s)
    requires forall i :: 0 <= i < |s| ==> x.timestamp >= s[i].timestamp
    ensures NewestFirst([x] + s)
  {
    var r := [x] + s;
    forall i, j | 0 <= i < j < |r| ensures r[i].timestamp >= r[j].timestamp {
      assert r[j] == s[j - 1];
      if i > 0 {
        assert r[i] == s[i - 1];
      }
    }
  }

  /** The tail of a newest-first list is newest first. */
  lemma NewestFirstTail(s: seq<CheckIn>)
    requires NewestFirst(s) && |s| > 0
    ensures NewestFirst(s[1..])
  {
    forall i, j | 0 <= i < j < |s[1..]| ensures s[1..][i].timestamp >= s[1..][j].timestamp {
      assert s[1..][i] == s[i + 1] && s[1..][j] == s[j + 1];
    }
  }

  /** Inserting into a newest-first list keeps it newest first. */
  lemma {:induction false} InsertNewestFirst(c: CheckIn, s: seq<CheckIn>)
    requires NewestFirst(s)
    ensures NewestFirst(Insert(c, s))
    decreases |s|
  {
    if |s| == 0 || s[0].timestamp <= c.timestamp {
      NewestFirstCons(c, s);
    } else {
      var rest := Insert(c, s[1..]);
      NewestFirstTail(s);
      InsertNewestFirst(c, s[1..]);
      forall i | 0 <= i < |rest| ensures s[0].timestamp >= rest[i].timestamp {
        var x := rest[i];
        assert x in multiset(rest);
        if x != c {
          assert x in multiset(s[1..]);
          var k :| 0 <= k < |s[1..]| && s[1..][k] == x;
          assert s[k + 1] == x;
        }
      }
      NewestFirstCons(s[0], rest);
    }
  }

  /** `[...checkIns].sort((a, b) => new Date(b.timestamp) - new Date(a.timestamp))`:
      a stable insertion sort, newest first, of a copy of the input. */
  function SortNewestFirst(s: seq<CheckIn>): (r: seq<CheckIn>)
    ensures multiset(r) == multiset(s)
    ensures |r| == |s|
  {
    if |s| == 0 then []
    else
      assert s == [s[0]] + s[1..];
      Insert(s[0], SortNewestFirst(s[1..]))
  }

  /** The sorted copy is newest first. */
  lemma {:induction false} SortIsNewestFirst(s: seq<CheckIn>)
    ensures NewestFirst(SortNewestFirst(s))
    decreases |s|
  {
    if |s| > 0 {
      SortIsNewestFirst(s[1..]);
      InsertNewestFirst(s[0], SortNewestFirst(s[1..]));
    }
  }

  /** The group of `t` in `[x] + s` is `x`'s contribution followed by the group in `s`. */
  lemma AtTimeCons(x: CheckIn, s: seq<CheckIn>, t: int)
    ensures AtTime([x] + s, t) == (if x.timestamp == t then [x] else []) + AtTime(s, t)
  {
    assert ([x] + s)[0] == x;
    assert ([x] + s)[1..] == s;
  }

  lemma {:induction false} AtTimeAppend(a: seq<CheckIn>, b: seq<CheckIn>, t: int)
    ensures AtTime(a + b, t) == AtTime(a, t) + AtTime(b, t)
    decreases |a|
  {
    if |a| == 0 {
      assert a + b == b;
    } else {
      assert a + b == [a[0]] + (a[1..] + b);
      assert a == [a[0]] + a[1..];
      AtTimeCons(a[0], a[1..] + b, t);
      AtTimeCons(a[0], a[1..], t);
      AtTimeAppend(a[1..], b, t);
    }
  }

  /** Inserting `c` adds it at the front of its own timestamp's group and leaves every other
      group alone. */
  lemma {:induction false} InsertAtTime(c: CheckIn, s: seq<CheckIn>, t: int)
    ensures AtTime(Insert(c, s), t) == (if c.timestamp == t then [c] else []) + AtTime(s, t)
    decreases |s|
  {
    if |s| == 0 || s[0].timestamp <= c.timestamp {
      AtTimeCons(c, s, t);
    } else {
      var x := s[0];
      var rest := Insert(c, s[1..]);
      assert Insert(c, s) == [x] + rest;
      assert s == [x] + s[1..];
      InsertAtTime(c, s[1..], t);
      AtTimeCons(x, rest, t);
      AtTimeCons(x, s[1..], t);
      var cx := if c.timestamp == t then [c] else [];
      var xx := if x.timestamp == t then [x] else [];
      assert cx == [] || xx == [];
      assert AtTime(Insert(c, s), t) == xx + (cx + AtTime(s[1..], t));
      assert AtTime(s, t) == xx + AtTime(s[1..], t);
    }
  }

  /** The sort is stable: check-ins with equal timestamps keep their input order. */
  lemma {:induction false} SortIsStable(s: seq<CheckIn>)
    ensures IsStableNewestFirst(SortNewestFirst(s), s)
    decreases |s|
  {
    SortIsNewestFirst(s);
    if |s| > 0 {
      SortIsStable(s[1..]);
      forall t ensures AtTime(SortNewestFirst(s), t) == AtTime(s, t) {
        InsertAtTime(s[0], SortNewestFirst(s[1..]), t);
        assert s == [s[0]] + s[1..];
      }
    }
  }

  /** Two lists that start with the same check-in and agree on every timestamp group have
      tails that agree on every group. */
  lemma AtTimeTails(x: CheckIn, s1: seq<CheckIn>, s2: seq<CheckIn>)
    requires forall t :: AtTime([x] + s1, t) == AtTime([x] + s2, t)
    ensures forall t :: AtTime(s1, t) == AtTime(s2, t)
  {
    forall t ensures AtTime(s1, t) == AtTime(s2, t) {
      AtTimeCons(x, s1, t);
      AtTimeCons(x, s2, t);
      var prefix := if x.timestamp == t then [x] else [];
      assert AtTime(s1, t) == (prefix + AtTime(s1, t))[|prefix|..];
      assert AtTime(s2, t) == (prefix + AtTime(s2, t))[|prefix|..];
    }
  }

  /** In a newest-first list, the head is no older than any member. */
  lemma HeadIsNewest(s: seq<CheckIn>, x: CheckIn)
    requires NewestFirst(s) && x in s
    ensures s[0].timestamp >= x.timestamp
  {
    var i :| 0 <= i < |s| && s[i] == x;
  }

  /** A stable descending order is unique: two sequences that are both newest first and agree
      on every timestamp group are equal. So any stable sort, such as the engine's
      `Array.prototype.sort`, produces exactly `SortNewestFirst`. */
  lemma {:induction false} StableNewestFirstUnique(r1: seq<CheckIn>, r2: seq<CheckIn>)
    requires NewestFirst(r1) && NewestFirst(r2)
    requires forall t :: AtTime(r1, t) == AtTime(r2, t)
    ensures r1 == r2
    decreases |r1|
  {
    if |r1| == 0 {
      if |r2| > 0 {
        AtTimeMembers(r2, r2[0].timestamp, r2[0]);
        AtTimeMembers(r1, r2[0].timestamp, r2[0]);
        assert false;
      }
    } else {
      var a := r1[0];
      AtTimeMembers(r1, a.timestamp, a);
      AtTimeMembers(r2, a.timestamp, a);
      var b := r2[0];
      AtTimeMembers(r2, b.timestamp, b);
      AtTimeMembers(r1, b.timestamp, b);
      HeadIsNewest(r1, b);
      HeadIsNewest(r2, a);
      var T := a.timestamp;
      assert r1 == [a] + r1[1..];
      assert r2 == [b] + r2[1..];
      AtTimeCons(a, r1[1..], T);
      AtTimeCons(b, r2[1..], T);
      assert AtTime(r1, T)[0] == a && AtTime(r2, T)[0] == b;
      AtTimeTails(a, r1[1..], r2[1..]);
      NewestFirstTail(r1);
      NewestFirstTail(r2);
      StableNewestFirstUnique(r1[1..], r2[1..]);
    }
  }

  /** The result of the sort is the one and only stable newest-first arrangement of its input. */
  lemma SortIsTheStableSort(s: seq<CheckIn>, r: seq<CheckIn>)
    requires IsStableNewestFirst(r, s)
    ensures r == SortNewestFirst(s)
  {
    SortIsStable(s);
    StableNewestFirstUnique(r, SortNewestFirst(s));
  }

  /** A list that is already newest first is returned unchanged. */
  lemma {:induction false} SortKeepsSorted(s: seq<CheckIn>)
    requires NewestFirst(s)
    ensures SortNewestFirst(s) == s
    decreases |s|
  {
    if |s| > 0 {
      NewestFirstTail(s);
      SortKeepsSorted(s[1..]);
      assert s == [s[0]] + s[1..];
    }
  }

  /** Sorting is idempotent. */
  lemma SortIdempotent(s: seq<CheckIn>)
    ensures SortNewestFirst(SortNewestFirst(s)) == SortNewestFirst(s)
  {
    SortIsNewestFirst(s);
    SortKeepsSorted(SortNewestFirst(s));
  }

  // ---------------------------------------------------------------------------
  // Rendering

  datatype Entry = Entry(
    checkIn: CheckIn,
    text: string,
    icon: Icon,
    color: string,
    isLatest: bool,       // the "Último" badge
    hasConnector: bool)   // the vertical line down to the next entry

  datatype Timeline =
    | NoCheckIns                      // "Aún no hay check-ins registrados"
    | Entries(entries: seq<Entry>)

  function EntryAt(sorted: seq<CheckIn>, index: nat): Entry
    requires index < |sorted|
  {
    var c := sorted[index];
    Entry(c, StateLabel(c.estado), StateIcon(c.estado), StateColor(c.estado),
          index == 0, index != |sorted| - 1)
  }

  /** The component's output for `checkIns` (absent when `null` or `undefined`). An absent
      or empty list gives the placeholder; otherwise the entries are the sorted copy, the
      first alone carrying the latest badge and all but the last drawing a connector. */
  function Render(checkIns: Option<seq<CheckIn>>): (t: Timeline)
    ensures t.NoCheckIns? <==> checkIns.None? || |checkIns.value| == 0
    ensures t.Entries? ==> |t.entries| == |checkIns.value| > 0
    ensures t.Entries? ==> multiset(seq(|t.entries|, i requires 0 <= i < |t.entries| => t.entries[i].checkIn))
                           == multiset(checkIns.value)
    ensures t.Entries? ==> forall i :: 0 <= i < |t.entries| ==>
              (t.entries[i].isLatest <==> i == 0) &&
              (t.entries[i].hasConnector <==> i < |t.entries| - 1)
    ensures t.Entries? ==> forall i, j :: 0 <= i < j < |t.entries| ==>
              t.entries[i].checkIn.timestamp >= t.entries[j].checkIn.timestamp
    ensures t.Entries? ==> forall i :: 0 <= i < |t.entries| ==>
              t.entries[i].checkIn == SortNewestFirst(checkIns.value)[i]
    ensures t.Entries? ==> forall i :: 0 <= i < |t.entries| ==>
              var e := t.entries[i];
              e.text == StateLabel(e.checkIn.estado) && e.icon == StateIcon(e.checkIn.estado)
              && e.color == StateColor(e.checkIn.estado)
  {
    if checkIns.None? || |checkIns.value| == 0 then NoCheckIns
    else
      var sorted := SortNewestFirst(checkIns.value);
      SortIsNewestFirst(checkIns.value);
      var entries := seq(|sorted|, i requires 0 <= i < |sorted| => EntryAt(sorted, i));
      assert seq(|entries|, i requires 0 <= i < |entries| => entries[i].checkIn) == sorted;
      Entries(entries)
  }

  /** The check-ins the timeline lists, top to bottom. */
  function Listed(t: Timeline): seq<CheckIn> {
    if t.NoCheckIns? then [] else seq(|t.entries|, i requires 0 <= i < |t.entries| => t.entries[i].checkIn)
  }

  /** The timeline lists the check-ins newest first and, for each timestamp, in the order they
      were given: it is the one stable newest-first arrangement of its input. */
  lemma RenderIsStable(checkIns: seq<CheckIn>)
    ensures IsStableNewestFirst(Listed(Render(Some(checkIns))), checkIns)
  {
    SortIsStable(checkIns);
    if |checkIns| == 0 {
      assert Listed(Render(Some(checkIns))) == [] == SortNewestFirst(checkIns);
    } else {
      assert Listed(Render(Some(checkIns))) == SortNewestFirst(checkIns);
    }
  }

  /** Exactly one entry carries the latest badge, and it holds a check-in no older than any other. */
  lemma ExactlyOneLatest(checkIns: seq<CheckIn>)
    requires |checkIns| > 0
    ensures Render(Some(checkIns)).Entries?
    ensures var es := Render(Some(checkIns)).entries;
            (forall i :: 0 <= i < |es| && es[i].isLatest ==> i == 0) && es[0].isLatest &&
            (forall c :: c in checkIns ==> es[0].checkIn.timestamp >= c.timestamp)
  {
    var sorted := SortNewestFirst(checkIns);
    SortIsNewestFirst(checkIns);
    forall c | c in checkIns ensures sorted[0].timestamp >= c.timestamp {
      assert c in multiset(sorted);
      var k :| 0 <= k < |sorted| && sorted[k] == c;
    }
  }

  /** An entry's label, icon and colour come from its state; an unknown state shows the raw
      state, the clock icon and gray. */
  lemma UnknownStateFallback(checkIns: seq<CheckIn>, i: nat)
    requires i < |checkIns|
    ensures Render(Some(checkIns)).Entries?
    ensures var e := Render(Some(checkIns)).entries[i];
            e.checkIn.estado !in StatusLabels.KnownSubStatuses ==>
              e.text == e.checkIn.estado && e.icon == ClockIcon && e.color == FallbackColor
  {
  }
}
