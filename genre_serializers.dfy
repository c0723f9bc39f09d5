/**
 * The genre serializers: GenreSerializer.validate_name refuses a numeric
 * name, and GenreBulkCreateSerializer.validate_genres turns a list of
 * proposed names into the list to create — trimmed, blanks dropped, numeric
 * names refused, duplicates removed without regard to case, keeping the
 * first spelling and the input order.
 */
module GenreSerializers {
  import opened Wrappers
  import opened Text

  const ValidStringRequired := "A valid string is required."
  const EmptyGenreList := "A lista de gêneros não pode estar vazia."

  /** The message that refuses a numeric entry. */
  function NumericGenreMessage(name: string): string
  {
    "\"" + name + "\" não é um nome válido. Números não são permitidos."
  }

  /** GenreSerializer.validate_name: a numeric name is refused, any other value passes unchanged. */
  function ValidateName(value: string): (r: Result<string, string>)
    ensures r.Failure? <==> IsNumeric(value)
    ensures r.Success? ==> r.value == value
    ensures r.Failure? ==> r.error == ValidStringRequired
  {
    if IsNumeric(value) then Failure(ValidStringRequired) else Success(value)
  }

  // The specification of validate_genres, stated in three independent steps.

  /** The entries trimmed, with the blank ones dropped, in input order. */
  function Cleaned(value: seq<string>): seq<string>
  {
    if value == [] then []
    else Cleaned(value[..|value| - 1]) + (if Strip(value[|value| - 1]) == [] then [] else [Strip(value[|value| - 1])])
  }

  /** The first trimmed entry that is numeric, if any. */
  function FirstNumeric(value: seq<string>): Option<string>
  {
    if value == [] then None
    else match FirstNumeric(value[..|value| - 1])
      case Some(n) => Some(n)
      case None => if IsNumeric(Strip(value[|value| - 1])) then Some(Strip(value[|value| - 1])) else None
  }

  /** The lower-case keys of a list of names. */
  function Keys(names: seq<string>): set<string>
  {
    if names == [] then {} else Keys(names[..|names| - 1]) + {Lower(names[|names| - 1])}
  }

  /** A key belongs to a list exactly when some name in it has that key. */
  lemma {:induction false} InKeys(names: seq<string>, key: string)
    ensures key in Keys(names) <==> exists i :: 0 <= i < |names| && Lower(names[i]) == key
  {
    if names != [] {
      var pre := names[..|names| - 1];
      InKeys(pre, key);
      if exists i :: 0 <= i < |names| && Lower(names[i]) == key {
        var i :| 0 <= i < |names| && Lower(names[i]) == key;
        if i < |pre| {
          assert pre[i] == names[i];
        }
      }
      if exists i :: 0 <= i < |pre| && Lower(pre[i]) == key {
        var i :| 0 <= i < |pre| && Lower(pre[i]) == key;
        assert names[i] == pre[i];
      }
    }
  }

  lemma KeysAppend(names: seq<string>, x: string)
    ensures Keys(names + [x]) == Keys(names) + {Lower(x)}
  {
    assert (names + [x])[..|names|] == names;
  }

  /** The first name of each lower-case key, in order. */
  function Dedup(names: seq<string>): seq<string>
  {
    if names == [] then []
    else
      var pre := Dedup(names[..|names| - 1]);
      if Lower(names[|names| - 1]) in Keys(pre) then pre else pre + [names[|names| - 1]]
  }

  /** What validate_genres returns or the message of the error it raises. */
  function ValidateGenresSpec(value: seq<string>): (r: Result<seq<string>, string>)
    ensures r.Failure? <==> value == [] || exists k :: 0 <= k < |value| && IsNumeric(Strip(value[k]))
  {
    FirstNumericIff(value);
    if value == [] then Failure(EmptyGenreList)
    else match FirstNumeric(value)
      case Some(n) => Failure(NumericGenreMessage(n))
      case None => Success(Dedup(Cleaned(value)))
  }

  /** validate_genres: one pass over the list with the set of keys seen so far. */
  method ValidateGenres(value: seq<string>) returns (r: Result<seq<string>, string>)
    ensures r == ValidateGenresSpec(value)
  {
    if value == [] {
      return Failure(EmptyGenreList);
    }
    var seen: set<string> := {};
    var uniqueGenres: seq<string> := [];
    for i := 0 to |value|
      invariant FirstNumeric(value[..i]).None?
      invariant uniqueGenres == Dedup(Cleaned(value[..i]))
      invariant seen == Keys(uniqueGenres)
    {
      PrefixStep(value, i);
      var genreName := Strip(value[i]);
      if genreName == [] {
        continue;
      }
      if IsNumeric(genreName) {
        FirstNumericPrefix(value[..i + 1], value[i + 1..]);
        assert value[..i + 1] + value[i + 1..] == value;
        return Failure(NumericGenreMessage(genreName));
      }
      if Lower(genreName) !in seen {
        KeysAppend(uniqueGenres, genreName);
        seen := seen + {Lower(genreName)};
        uniqueGenres := uniqueGenres + [genreName];
      }
    }
    assert value[..|value|] == value;
    return Success(uniqueGenres);
  }

  /** One more entry: how Cleaned, FirstNumeric and Dedup extend. */
  lemma PrefixStep(value: seq<string>, i: nat)
    requires i < |value|
    ensures var name := Strip(value[i]);
            && Cleaned(value[..i + 1]) == Cleaned(value[..i]) + (if name == [] then [] else [name])
            && FirstNumeric(value[..i + 1]) == (if FirstNumeric(value[..i]).Some? then FirstNumeric(value[..i])
                                                else if IsNumeric(name) then Some(name) else None)
            && (name == [] ==> Cleaned(value[..i + 1]) == Cleaned(value[..i]))
            && (name != [] && Lower(name) in Keys(Dedup(Cleaned(value[..i])))
                ==> Dedup(Cleaned(value[..i + 1])) == Dedup(Cleaned(value[..i])))
            && (name != [] && Lower(name) !in Keys(Dedup(Cleaned(value[..i])))
                ==> Dedup(Cleaned(value[..i + 1])) == Dedup(Cleaned(value[..i])) + [name])
  {
    assert value[..i + 1][..i] == value[..i];
    var c := Cleaned(value[..i]);
    assert (c + [Strip(value[i])])[..|c|] == c;
    assert c + [] == c;
  }

  lemma {:induction false} FirstNumericPrefix(a: seq<string>, b: seq<string>)
    requires FirstNumeric(a).Some?
    ensures FirstNumeric(a + b) == FirstNumeric(a)
    decreases |b|
  {
    if b == [] {
      assert a + b == a;
    } else {
      FirstNumericPrefix(a, b[..|b| - 1]);
      assert (a + b)[..|a + b| - 1] == a + b[..|b| - 1];
    }
  }

  // Properties of the three steps.

  /** Every cleaned entry is a trimmed input entry and is not blank; every non-blank trimmed entry is kept. */
  lemma {:induction false} CleanedSpec(value: seq<string>)
    ensures forall x :: x in Cleaned(value) ==> x != [] && exists k :: 0 <= k < |value| && x == Strip(value[k])
    ensures forall k :: 0 <= k < |value| && Strip(value[k]) != [] ==> Strip(value[k]) in Cleaned(value)
  {
    if value != [] {
      var pre := value[..|value| - 1];
      CleanedSpec(pre);
      forall x | x in Cleaned(value) ensures x != [] && exists k :: 0 <= k < |value| && x == Strip(value[k]) {
        if x in Cleaned(pre) {
          var k :| 0 <= k < |pre| && x == Strip(pre[k]);
          assert value[k] == pre[k];
        }
      }
      forall k | 0 <= k < |value| - 1 && Strip(value[k]) != [] ensures Strip(value[k]) in Cleaned(value) {
        assert value[k] == pre[k];
      }
    }
  }

  /** No cleaned entry has whitespace at either end. */
  lemma {:induction false} CleanedIsTrimmed(value: seq<string>)
    ensures forall x :: x in Cleaned(value) ==> Strip(x) == x
  {
    if value != [] {
      CleanedIsTrimmed(value[..|value| - 1]);
      StripIdempotent(value[|value| - 1]);
    }
  }

  /** When no entry is numeric, no cleaned entry is. */
  lemma {:induction false} CleanedNotNumeric(value: seq<string>)
    requires FirstNumeric(value).None?
    ensures forall x :: x in Cleaned(value) ==> !IsNumeric(x)
  {
    if value != [] {
      CleanedNotNumeric(value[..|value| - 1]);
    }
  }

  /** The list is refused for a numeric entry exactly when some trimmed entry is numeric. */
  lemma {:induction false} FirstNumericIff(value: seq<string>)
    ensures FirstNumeric(value).Some? <==> exists k :: 0 <= k < |value| && IsNumeric(Strip(value[k]))
    ensures FirstNumeric(value).Some? ==> IsNumeric(FirstNumeric(value).value)
  {
    if value != [] {
      var pre := value[..|value| - 1];
      FirstNumericIff(pre);
      if exists k :: 0 <= k < |pre| && IsNumeric(Strip(pre[k])) {
        var k :| 0 <= k < |pre| && IsNumeric(Strip(pre[k]));
        assert value[k] == pre[k];
      }
      if exists k :: 0 <= k < |value| && IsNumeric(Strip(value[k])) {
        var k :| 0 <= k < |value| && IsNumeric(Strip(value[k]));
        if k < |pre| {
          assert value[k] == pre[k];
        }
      }
    }
  }

  /**
   * Dedup keeps, in order, exactly the first name of each key: its result
   * is the list at the increasing positions DedupPositions, the name at each
   * of them has no earlier name with the same key, its keys are pairwise
   * distinct, and no key of the input is lost.
   */
  function DedupPositions(names: seq<string>): seq<nat>
  {
    if names == [] then []
    else
      var pre := names[..|names| - 1];
      if Lower(names[|names| - 1]) in Keys(Dedup(pre)) then DedupPositions(pre) else DedupPositions(pre) + [|names| - 1]
  }

  lemma {:induction false} DedupKeys(names: seq<string>)
    ensures Keys(Dedup(names)) == Keys(names)
  {
    if names != [] {
      var pre := names[..|names| - 1];
      var x := names[|names| - 1];
      DedupKeys(pre);
      assert names == pre + [x];
      KeysAppend(pre, x);
      if Lower(x) !in Keys(Dedup(pre)) {
        KeysAppend(Dedup(pre), x);
      }
    }
  }

  lemma {:induction false} DedupDistinct(names: seq<string>)
    ensures forall i, j :: 0 <= i < j < |Dedup(names)| ==> Lower(Dedup(names)[i]) != Lower(Dedup(names)[j])
  {
    if names != [] {
      var pre := names[..|names| - 1];
      var x := names[|names| - 1];
      DedupDistinct(pre);
      InKeys(Dedup(pre), Lower(x));
    }
  }

  lemma {:induction false} DedupPositionsSpec(names: seq<string>)
    ensures var d, p := Dedup(names), DedupPositions(names);
            && |p| == |d|
            && (forall j :: 0 <= j < |p| ==> p[j] < |names| && d[j] == names[p[j]])
            && (forall i, j :: 0 <= i < j < |p| ==> p[i] < p[j])
            && (forall j, q :: 0 <= j < |p| && 0 <= q < p[j] ==> Lower(names[q]) != Lower(d[j]))
  {
    if names != [] {
      var pre := names[..|names| - 1];
      var x := names[|names| - 1];
      DedupPositionsSpec(pre);
      var d0, p0 := Dedup(pre), DedupPositions(pre);
      forall j, q | 0 <= j < |p0| && 0 <= q < p0[j] ensures Lower(names[q]) != Lower(d0[j]) {
        assert names[q] == pre[q];
      }
      forall j | 0 <= j < |p0| ensures d0[j] == names[p0[j]] {
        assert names[p0[j]] == pre[p0[j]];
      }
      if Lower(x) !in Keys(d0) {
        DedupKeys(pre);
        InKeys(pre, Lower(x));
        forall q | 0 <= q < |names| - 1 ensures Lower(names[q]) != Lower(x) {
          assert names[q] == pre[q];
        }
      }
    }
  }

  /** All that Dedup promises, at once. */
  lemma DedupSpec(names: seq<string>)
    ensures var d, p := Dedup(names), DedupPositions(names);
            && |p| == |d|
            && (forall j :: 0 <= j < |p| ==> p[j] < |names| && d[j] == names[p[j]])
            && (forall i, j :: 0 <= i < j < |p| ==> p[i] < p[j])
            && (forall j, q :: 0 <= j < |p| && 0 <= q < p[j] ==> Lower(names[q]) != Lower(d[j]))
            && (forall i, j :: 0 <= i < j < |d| ==> Lower(d[i]) != Lower(d[j]))
            && Keys(d) == Keys(names)
  {
    DedupKeys(names);
    DedupDistinct(names);
    DedupPositionsSpec(names);
  }

  /** A list whose keys are already pairwise distinct is its own deduplication. */
  lemma {:induction false} DedupOfDistinct(names: seq<string>)
    requires forall i, j :: 0 <= i < j < |names| ==> Lower(names[i]) != Lower(names[j])
    ensures Dedup(names) == names
  {
    if names != [] {
      var pre := names[..|names| - 1];
      DedupOfDistinct(pre);
      InKeys(pre, Lower(names[|names| - 1]));
      forall i | 0 <= i < |pre| ensures Lower(pre[i]) != Lower(names[|names| - 1]) {
        assert pre[i] == names[i];
      }
    }
  }

  /** A list of trimmed, non-blank names is its own cleaning. */
  lemma {:induction false} CleanedOfTrimmed(names: seq<string>)
    requires forall x :: x in names ==> x != [] && Strip(x) == x
    ensures Cleaned(names) == names
  {
    if names != [] {
      var pre := names[..|names| - 1];
      var last := names[|names| - 1];
      assert names == pre + [last];
      forall x | x in pre ensures x != [] && Strip(x) == x {
        assert x in names;
      }
      CleanedOfTrimmed(pre);
      assert last in names;
    }
  }

  /** A list with no numeric name is never refused for one. */
  lemma {:induction false} FirstNumericNone(names: seq<string>)
    requires forall x :: x in names ==> !IsNumeric(Strip(x))
    ensures FirstNumeric(names).None?
  {
    if names != [] {
      var pre := names[..|names| - 1];
      assert forall x :: x in pre ==> x in names;
      FirstNumericNone(pre);
      assert names[|names| - 1] in names;
    }
  }

  // What validate_genres promises.

  /** The empty list is refused. */
  lemma EmptyListRefused()
    ensures ValidateGenresSpec([]) == Failure(EmptyGenreList)
  {
  }

  /** A numeric entry anywhere refuses the whole list, with no partial output. */
  lemma NumericRefusesAll(value: seq<string>)
    ensures (exists k :: 0 <= k < |value| && IsNumeric(Strip(value[k]))) ==> ValidateGenresSpec(value).Failure?
    ensures ValidateGenresSpec(value).Failure? <==> value == [] || exists k :: 0 <= k < |value| && IsNumeric(Strip(value[k]))
  {
    FirstNumericIff(value);
  }

  /**
   * On success, every output is the trimmed form of some input entry and is
   * not blank; the outputs are the cleaned entries at increasing positions,
   * each the first of its key; no two share a key; and every non-blank
   * entry's key is among the outputs' keys.
   */
  lemma ValidateGenresProperties(value: seq<string>)
    requires ValidateGenresSpec(value).Success?
    ensures var out, c := ValidateGenresSpec(value).value, Cleaned(value);
            && (forall x :: x in out ==> x != [] && exists k :: 0 <= k < |value| && x == Strip(value[k]))
            && (forall i, j :: 0 <= i < j < |out| ==> Lower(out[i]) != Lower(out[j]))
            && |DedupPositions(c)| == |out|
            && (forall j :: 0 <= j < |out| ==> DedupPositions(c)[j] < |c| && out[j] == c[DedupPositions(c)[j]])
            && (forall i, j :: 0 <= i < j < |out| ==> DedupPositions(c)[i] < DedupPositions(c)[j])
            && (forall j, q :: 0 <= j < |out| && 0 <= q < DedupPositions(c)[j] ==> Lower(c[q]) != Lower(out[j]))
            && (forall k :: 0 <= k < |value| && Strip(value[k]) != [] ==> Lower(Strip(value[k])) in Keys(out))
  {
    var c := Cleaned(value);
    CleanedSpec(value);
    DedupSpec(c);
    var out := Dedup(c);
    forall x | x in out ensures x in c {
      var j :| 0 <= j < |out| && out[j] == x;
    }
    forall k | 0 <= k < |value| && Strip(value[k]) != [] ensures Lower(Strip(value[k])) in Keys(out) {
      var i :| 0 <= i < |c| && c[i] == Strip(value[k]);
      InKeys(c, Lower(Strip(value[k])));
    }
  }

  /** Validating an accepted, non-empty result again returns it unchanged. */
  lemma ValidateGenresIdempotent(value: seq<string>)
    requires ValidateGenresSpec(value).Success? && ValidateGenresSpec(value).value != []
    ensures ValidateGenresSpec(ValidateGenresSpec(value).value) == ValidateGenresSpec(value)
  {
    var c := Cleaned(value);
    var out := Dedup(c);
    CleanedSpec(value);
    CleanedIsTrimmed(value);
    CleanedNotNumeric(value);
    DedupSpec(c);
    forall x | x in out ensures x in c {
      var j :| 0 <= j < |out| && out[j] == x;
    }
    CleanedOfTrimmed(out);
    FirstNumericNone(out);
    DedupOfDistinct(out);
  }

  // The partition GenreBulkCreateView makes of the validated list: names
  // whose key matches a stored genre are skipped, the others created.

  /** (to create, already stored) for a deduplicated list, against the lower-case keys of the stored genres. */
  function BulkPartition(names: seq<string>, storedKeys: set<string>): (r: (seq<string>, seq<string>))
    ensures |r.0| + |r.1| == |names|
    ensures forall x :: x in r.0 ==> x in names && Lower(x) !in storedKeys
    ensures forall x :: x in r.1 ==> x in names && Lower(x) in storedKeys
  {
    if names == [] then ([], [])
    else
      var p := BulkPartition(names[..|names| - 1], storedKeys);
      var x := names[|names| - 1];
      if Lower(x) in storedKeys then (p.0, p.1 + [x]) else (p.0 + [x], p.1)
  }

  /** Every name lands on exactly one side. */
  lemma {:induction false} BulkPartitionCovers(names: seq<string>, storedKeys: set<string>)
    ensures forall x :: x in names ==> (x in BulkPartition(names, storedKeys).0 <==> Lower(x) !in storedKeys)
    ensures forall x :: x in names ==> (x in BulkPartition(names, storedKeys).1 <==> Lower(x) in storedKeys)
  {
    if names != [] {
      BulkPartitionCovers(names[..|names| - 1], storedKeys);
      assert forall x :: x in names <==> x in names[..|names| - 1] || x == names[|names| - 1] by {
        assert names == names[..|names| - 1] + [names[|names| - 1]];
      }
    }
  }
}
