/** Record types shared by the storage, matching and delivery models. */
module Records {
  datatype Option<+T> = None | Some(value: T)

  datatype Category = EarthquakeWarning | EarthquakeReport | WeatherWarning | Tsunami | Typhoon
  {
    predicate Retired() {
      WeatherWarning? || Tsunami? || Typhoon?
    }

    predicate Earthquake() {
      EarthquakeWarning? || EarthquakeReport?
    }
  }

  datatype InterruptionLevel = Passive | Active | Critical

  /** The text of an event key. Incident ids and aliases are SHA-256 digests of it in the program;
      here they are injective wrappers around it. */
  type KeyText = string
  datatype IncidentId = IncidentId(origin: KeyText)

  datatype Row = Row(
    destination: nat, subscription: nat, generation: nat, targetOrdinal: nat, matchKind: nat,
    level: InterruptionLevel, distanceM: nat, intensityCent: nat)

  datatype Batch = Batch(
    id: nat, incident: IncidentId, revision: nat, category: Category, createdAt: int, rows: seq<Row>)

  datatype Job = Job(id: nat, incident: IncidentId, revision: nat, createdAt: int)

  function NonNegative(x: int): nat {
    if x < 0 then 0 else x
  }

  /** No element occurs at two positions. */
  ghost predicate Distinct<T>(s: seq<T>) {
    forall i, j :: 0 <= i < j < |s| ==> s[i] != s[j]
  }

  function Elements<T>(s: seq<T>): set<T> {
    set x | x in s
  }

  lemma {:induction false} CardinalityOfElements<T>(s: seq<T>)
    ensures |Elements(s)| <= |s|
    ensures |Elements(s)| == |s| <==> Distinct(s)
  {
    if s == [] {
    } else {
      var front, last := s[..|s| - 1], s[|s| - 1];
      CardinalityOfElements(front);
      assert s == front + [last];
      assert Elements(s) == Elements(front) + {last};
      if Distinct(s) {
        assert Distinct(front);
        assert last !in Elements(front);
      }
      if last in front {
        var k :| 0 <= k < |front| && front[k] == last;
        assert s[k] == s[|s| - 1];
        assert Elements(s) == Elements(front);
      }
    }
  }

  function Below(n: nat): (r: set<nat>)
    ensures forall i: nat :: i in r <==> i < n
  {
    if n == 0 then {} else Below(n - 1) + {n - 1}
  }

  lemma {:induction false} CardinalityOfBelow(n: nat)
    ensures |Below(n)| == n
  {
    if n == 0 {
      assert Below(0) == {};
    } else {
      CardinalityOfBelow(n - 1);
      assert Below(n) == Below(n - 1) + {n - 1};
    }
  }

  /** A subset of the first n numbers is all of them exactly when it has n elements. */
  lemma FullWhenCounted(s: set<nat>, n: nat)
    requires s <= Below(n)
    ensures |s| <= n
    ensures |s| == n <==> s == Below(n)
  {
    CardinalityOfBelow(n);
    SubsetCardinality(s, Below(n));
  }

  lemma {:induction false} SubsetCardinality<T>(small: set<T>, large: set<T>)
    requires small <= large
    ensures |small| <= |large|
    ensures |small| == |large| <==> small == large
  {
    assert large == small + (large - small);
    assert |large| == |small| + |large - small|;
    if |small| == |large| {
      assert large - small == {};
    }
  }
}
