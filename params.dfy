/**
 * The filter-parameter normaliser of the client: `_prepare_params` and its
 * fixed rename table `_params_remap`.
 *
 * A filter dictionary maps a field name to a value or to `None` (`Null`).
 * Normalising it (1) replaces a datetime in `created_at_gt`/`created_at_lt`
 * by its UTC ISO-8601 text, (2) drops every entry whose value is `None`, and
 * (3) renames the logical field names of the table to their dotted wire
 * names.  Timezone conversion and ISO formatting are library calls and enter
 * as function parameters (`Dates`).
 *
 * The normaliser is stated and proved for any rename table with the shape of
 * `_params_remap` (`ValidRemap`); `ParamsRemapValid` shows the real table has
 * that shape.
 */
module Params {
  import opened Wrappers

  /** A Python `datetime.datetime`; `utcOffset` is `None` for a naive one. */
  datatype DateTime = DateTime(
    year: int, month: int, day: int,
    hour: int, minute: int, second: int, microsecond: int,
    utcOffset: Option<int>)

  /** A filter value: `None`, a string, a boolean, an integer or a datetime. */
  datatype Value = Null | Str(s: string) | Bool(b: bool) | Int(n: int) | Stamp(at: DateTime)

  /** A filter dictionary; the model's map does not record key order. */
  type Params = map<string, Value>

  /** A rename table: logical field name to wire name. */
  type Remap = map<string, string>

  /** `_to_utc` and `datetime.isoformat`, both left uninterpreted. */
  datatype Dates = Dates(toUtc: DateTime -> DateTime, isoformat: DateTime -> string)

  function UtcIso(dates: Dates, t: DateTime): string
  {
    dates.isoformat(dates.toUtc(t))
  }

  /** The two date-bearing fields, in the order the first loop visits them. */
  const DateFields: seq<string> := ["created_at_gt", "created_at_lt"]

  /** `_params_remap`: logical field name to dotted wire name. */
  const ParamsRemap: Remap := map[
    "recipients_address" := "recipients.address",
    "recipients_address_contains" := "recipients.address_contains",
    "recipients_name" := "recipients.name",
    "recipients_name_contains" := "recipients.name_contains",
    "sender_address" := "sender.address",
    "sender_address_contains" := "sender.address_contains",
    "sender_name" := "sender.name",
    "sender_name_contains" := "sender.name_contains"
  ]

  /**
   * The shape of `_params_remap` the normaliser relies on: wire names are
   * non-empty (so `if proper_name:` holds for every listed name), distinct,
   * never themselves logical names, and neither kind of name is a date field.
   */
  predicate ValidRemap(remap: Remap)
  {
    && (forall k | k in remap :: remap[k] != "" && remap[k] !in remap)
    && (forall k | k in remap :: k !in DateFields && remap[k] !in DateFields)
    && (forall k, k' | k in remap && k' in remap && remap[k] == remap[k'] :: k == k')
  }

  lemma ParamsRemapValid()
    ensures ValidRemap(ParamsRemap)
  {
    WireNamesAreNew();
    NoDateFieldRenamed();
    WireNamesDistinct();
  }

  lemma WireNamesAreNew()
    ensures forall k | k in ParamsRemap :: ParamsRemap[k] != "" && ParamsRemap[k] !in ParamsRemap
  {
  }

  lemma NoDateFieldRenamed()
    ensures forall k | k in ParamsRemap :: k !in DateFields && ParamsRemap[k] !in DateFields
  {
  }

  lemma WireNamesDistinct()
    ensures forall k, k' | k in ParamsRemap && k' in ParamsRemap && ParamsRemap[k] == ParamsRemap[k'] :: k == k'
  {
  }

  /** `w` is the wire name of some logical field. */
  ghost predicate IsWireName(remap: Remap, w: string)
  {
    exists k :: k in remap && remap[k] == w
  }

  // ---------------------------------------------------------------------
  // Specification

  /** The dictionary after the first loop: datetimes in the date fields become text. */
  function ConvertDates(params: Params, dates: Dates): Params
  {
    map k | k in params :: if k in DateFields && params[k].Stamp? then Str(UtcIso(dates, params[k].at)) else params[k]
  }

  /** Non-`None` entries whose name has no wire name keep their name. */
  function Kept(remap: Remap, q: Params): Params
  {
    map x | x in q && q[x] != Null && x !in remap :: q[x]
  }

  /** Non-`None` entries whose name has a wire name, stored under the wire name. */
  function Moved(remap: Remap, q: Params): Params
    requires ValidRemap(remap)
  {
    map k | k in q && k in remap && q[k] != Null :: remap[k] := q[k]
  }

  /**
   * The intended result of `_prepare_params`: the converted dictionary
   * without `None` entries, logical names replaced by wire names; a moved
   * entry wins over an entry the caller passed under the wire name itself.
   */
  function Normalize(remap: Remap, params: Params, dates: Dates): Params
    requires ValidRemap(remap)
  {
    var q := ConvertDates(params, dates);
    Kept(remap, q) + Moved(remap, q)
  }

  // ---------------------------------------------------------------------
  // The specification one name at a time

  lemma UnionAt(a: Params, b: Params, x: string)
    ensures x in a + b <==> x in a || x in b
    ensures x in b ==> (a + b)[x] == b[x]
    ensures x !in b && x in a ==> (a + b)[x] == a[x]
  {
  }

  lemma ConvertAt(params: Params, dates: Dates, x: string)
    ensures x in ConvertDates(params, dates) <==> x in params
    ensures x in params ==> var v := ConvertDates(params, dates)[x];
      && (v == Null <==> params[x] == Null)
      && v == if x in DateFields && params[x].Stamp? then Str(UtcIso(dates, params[x].at)) else params[x]
  {
  }

  lemma KeptAt(remap: Remap, q: Params, x: string)
    ensures x in Kept(remap, q) <==> x in q && q[x] != Null && x !in remap
    ensures x in Kept(remap, q) ==> Kept(remap, q)[x] == q[x]
  {
  }

  /** A logical name with a value lands under its wire name. */
  lemma MovedFrom(remap: Remap, q: Params, k: string)
    requires ValidRemap(remap)
    requires k in q && k in remap && q[k] != Null
    ensures remap[k] in Moved(remap, q) && Moved(remap, q)[remap[k]] == q[k]
  {
  }

  /** Every moved entry comes from a logical name with a value. */
  lemma MovedSource(remap: Remap, q: Params, w: string) returns (k: string)
    requires ValidRemap(remap)
    requires w in Moved(remap, q)
    ensures k in q && k in remap && q[k] != Null && remap[k] == w && Moved(remap, q)[w] == q[k]
  {
    k :| k in q && k in remap && q[k] != Null && remap[k] == w;
  }

  /** A moved entry sits under a wire name, which is never a logical name nor a date field. */
  lemma MovedKey(remap: Remap, q: Params, w: string)
    requires ValidRemap(remap)
    ensures w in Moved(remap, q) ==> IsWireName(remap, w) && w !in remap && w !in DateFields && Moved(remap, q)[w] != Null
  {
    if w in Moved(remap, q) {
      var k := MovedSource(remap, q, w);
    }
  }

  // ---------------------------------------------------------------------
  // Properties of the normalised dictionary

  /** No `None` reaches the wire; falsy values such as `false` or "" do (they are not `None`). */
  lemma NormalizeDropsNulls(remap: Remap, params: Params, dates: Dates, x: string)
    requires ValidRemap(remap)
    requires x in Normalize(remap, params, dates)
    ensures Normalize(remap, params, dates)[x] != Null
  {
    var q := ConvertDates(params, dates);
    UnionAt(Kept(remap, q), Moved(remap, q), x);
    KeptAt(remap, q, x);
    MovedKey(remap, q, x);
  }

  /**
   * A name that is neither a logical nor a wire name is kept exactly when its
   * value is not `None`; a datetime in a date field becomes its UTC ISO-8601
   * text, any other value is untouched.
   */
  lemma NormalizeKeepsOthers(remap: Remap, params: Params, dates: Dates, x: string)
    requires ValidRemap(remap)
    requires x in params && x !in remap && !IsWireName(remap, x)
    ensures x in Normalize(remap, params, dates) <==> params[x] != Null
    ensures x in Normalize(remap, params, dates) && x !in DateFields ==> Normalize(remap, params, dates)[x] == params[x]
    ensures x in Normalize(remap, params, dates) && x in DateFields ==>
      Normalize(remap, params, dates)[x] == if params[x].Stamp? then Str(UtcIso(dates, params[x].at)) else params[x]
  {
    var q := ConvertDates(params, dates);
    UnionAt(Kept(remap, q), Moved(remap, q), x);
    ConvertAt(params, dates, x);
    KeptAt(remap, q, x);
    MovedKey(remap, q, x);
  }

  /**
   * Every logical name of the table disappears, and when its value is not
   * `None` the wire name carries that same value.
   */
  lemma NormalizeRenames(remap: Remap, params: Params, dates: Dates, k: string)
    requires ValidRemap(remap)
    requires k in remap
    ensures k !in Normalize(remap, params, dates)
    ensures k in params && params[k] != Null ==>
      remap[k] in Normalize(remap, params, dates) && Normalize(remap, params, dates)[remap[k]] == params[k]
  {
    var q := ConvertDates(params, dates);
    UnionAt(Kept(remap, q), Moved(remap, q), k);
    KeptAt(remap, q, k);
    MovedKey(remap, q, k);
    ConvertAt(params, dates, k);
    if k in params && params[k] != Null {
      MovedFrom(remap, q, k);
      UnionAt(Kept(remap, q), Moved(remap, q), remap[k]);
    }
  }

  /** Nothing is invented: every name of the result is a name of the input or a wire name. */
  lemma NormalizeInventsNothing(remap: Remap, params: Params, dates: Dates, x: string)
    requires ValidRemap(remap)
    requires x in Normalize(remap, params, dates)
    ensures x in params || IsWireName(remap, x)
  {
    var q := ConvertDates(params, dates);
    UnionAt(Kept(remap, q), Moved(remap, q), x);
    KeptAt(remap, q, x);
    ConvertAt(params, dates, x);
    MovedKey(remap, q, x);
  }

  /** A name the caller passed under a wire name gives way to the logical name that maps to it. */
  lemma NormalizeWireNameInput(remap: Remap, params: Params, dates: Dates, k: string)
    requires ValidRemap(remap)
    requires k in remap && remap[k] in params
    ensures remap[k] in Normalize(remap, params, dates) <==>
      (k in params && params[k] != Null) || params[remap[k]] != Null
    ensures remap[k] in Normalize(remap, params, dates) ==>
      Normalize(remap, params, dates)[remap[k]] == (if k in params && params[k] != Null then params[k] else params[remap[k]])
  {
    var w := remap[k];
    var q := ConvertDates(params, dates);
    UnionAt(Kept(remap, q), Moved(remap, q), w);
    ConvertAt(params, dates, w);
    ConvertAt(params, dates, k);
    KeptAt(remap, q, w);
    if k in params && params[k] != Null {
      MovedFrom(remap, q, k);
    } else if w in Moved(remap, q) {
      var k' := MovedSource(remap, q, w);
    }
  }

  /**
   * A wire name is in the result exactly when its logical name or the wire
   * name itself held a value other than `None`: no other wire name appears.
   */
  lemma NormalizeWireNamePresent(remap: Remap, params: Params, dates: Dates, k: string)
    requires ValidRemap(remap)
    requires k in remap
    ensures remap[k] in Normalize(remap, params, dates) <==>
      (k in params && params[k] != Null) || (remap[k] in params && params[remap[k]] != Null)
  {
    var w := remap[k];
    var q := ConvertDates(params, dates);
    UnionAt(Kept(remap, q), Moved(remap, q), w);
    ConvertAt(params, dates, w);
    ConvertAt(params, dates, k);
    KeptAt(remap, q, w);
    if k in params && params[k] != Null {
      MovedFrom(remap, q, k);
    } else if w in Moved(remap, q) {
      var k' := MovedSource(remap, q, w);
      ConvertAt(params, dates, k');
    }
  }

  /** The date fields are plain names: neither logical nor wire names. */
  lemma DateFieldIsPlain(remap: Remap, d: string)
    requires ValidRemap(remap)
    requires d in DateFields
    ensures d !in remap && !IsWireName(remap, d)
  {
  }

  /** A dictionary without datetimes in its date fields is left alone by the first loop. */
  lemma ConvertDatesStable(r: Params, dates: Dates)
    requires forall d | d in DateFields && d in r :: !r[d].Stamp?
    ensures ConvertDates(r, dates) == r
  {
    forall x | x in r ensures ConvertDates(r, dates)[x] == r[x] {
      ConvertAt(r, dates, x);
    }
  }

  /** Without logical names nothing moves. */
  lemma MovedEmpty(remap: Remap, r: Params)
    requires ValidRemap(remap)
    requires forall x | x in r :: x !in remap
    ensures Moved(remap, r) == map[]
  {
    forall w | w in Moved(remap, r) ensures false {
      var k := MovedSource(remap, r, w);
    }
  }

  /** Without `None` values and logical names everything is kept. */
  lemma KeptAll(remap: Remap, r: Params)
    requires forall x | x in r :: r[x] != Null && x !in remap
    ensures Kept(remap, r) == r
  {
    forall x ensures (x in Kept(remap, r) <==> x in r) && (x in r ==> Kept(remap, r)[x] == r[x]) {
      KeptAt(remap, r, x);
    }
  }

  /**
   * Normalising twice is normalising once: the result holds no `None`, no
   * datetime in a date field and no logical name, and no wire name is itself
   * a logical name.
   */
  lemma NormalizeIdempotent(remap: Remap, params: Params, dates: Dates)
    requires ValidRemap(remap)
    ensures Normalize(remap, Normalize(remap, params, dates), dates) == Normalize(remap, params, dates)
  {
    var r := Normalize(remap, params, dates);
    forall x | x in r
      ensures r[x] != Null && x !in remap
      ensures x in DateFields ==> !r[x].Stamp?
    {
      NormalizeDropsNulls(remap, params, dates, x);
      if x in remap {
        NormalizeRenames(remap, params, dates, x);
      }
      if x in DateFields {
        DateFieldIsPlain(remap, x);
        NormalizeInventsNothing(remap, params, dates, x);
        NormalizeKeepsOthers(remap, params, dates, x);
      }
    }
    ConvertDatesStable(r, dates);
    MovedEmpty(remap, r);
    KeptAll(remap, r);
    assert r + map[] == r;
  }

  /** What goes on the wire holds no `None` and no logical name. */
  lemma NormalizeClean(remap: Remap, params: Params, dates: Dates)
    requires ValidRemap(remap)
    ensures forall x | x in Normalize(remap, params, dates) :: Normalize(remap, params, dates)[x] != Null && x !in remap
  {
    forall x | x in Normalize(remap, params, dates) ensures Normalize(remap, params, dates)[x] != Null && x !in remap {
      NormalizeDropsNulls(remap, params, dates, x);
      if x in remap {
        NormalizeRenames(remap, params, dates, x);
      }
    }
  }

  /** A dictionary of `None`s normalises to the empty dictionary: no filter is sent. */
  lemma NormalizeAllNull(remap: Remap, params: Params, dates: Dates)
    requires ValidRemap(remap)
    requires forall x | x in params :: params[x] == Null
    ensures Normalize(remap, params, dates) == map[]
  {
    var q := ConvertDates(params, dates);
    forall x ensures x !in Normalize(remap, params, dates) {
      UnionAt(Kept(remap, q), Moved(remap, q), x);
      KeptAt(remap, q, x);
      ConvertAt(params, dates, x);
      if x in Moved(remap, q) {
        var k := MovedSource(remap, q, x);
        ConvertAt(params, dates, k);
      }
    }
  }

  /** The name an entry ends up under. */
  function WireName(remap: Remap, k: string): string
  {
    if k in remap then remap[k] else k
  }

  /**
   * A dictionary with a single non-`None` entry normalises to that one entry,
   * under its wire name, with its value converted if it is a date.
   */
  lemma NormalizeSingle(remap: Remap, params: Params, dates: Dates, k: string)
    requires ValidRemap(remap)
    requires k in params && params[k] != Null
    requires forall x | x in params && x != k :: params[x] == Null
    ensures Normalize(remap, params, dates) == map[WireName(remap, k) := ConvertDates(params, dates)[k]]
  {
    var q := ConvertDates(params, dates);
    var r, e := Normalize(remap, params, dates), map[WireName(remap, k) := q[k]];
    ConvertAt(params, dates, k);
    forall x ensures (x in r <==> x in e) && (x in r ==> r[x] == e[x]) {
      UnionAt(Kept(remap, q), Moved(remap, q), x);
      KeptAt(remap, q, x);
      ConvertAt(params, dates, x);
      if x in Moved(remap, q) {
        var k' := MovedSource(remap, q, x);
        ConvertAt(params, dates, k');
      }
      if k in remap {
        MovedFrom(remap, q, k);
      }
    }
  }

  // ---------------------------------------------------------------------
  // The rename loop, one visit at a time

  /** Entries of `q` whose names are in `names`. */
  function Restrict(q: Params, names: set<string>): Params
  {
    map x | x in q && x in names :: q[x]
  }

  lemma RestrictAt(q: Params, names: set<string>, x: string)
    ensures x in Restrict(q, names) <==> x in q && x in names
    ensures x in Restrict(q, names) ==> Restrict(q, names)[x] == q[x]
  {
  }

  /**
   * The dictionary once the rename loop has visited the names in `done` of
   * the snapshot `q`: unvisited entries are as in `q`, visited ones are kept
   * or moved, and a moved entry overrides an entry already under its wire name.
   */
  ghost function Partial(remap: Remap, q: Params, done: set<string>): Params
    requires ValidRemap(remap)
  {
    var seen := Restrict(q, done);
    Restrict(q, q.Keys - done) + (Kept(remap, seen) + Moved(remap, seen))
  }

  lemma RestrictAll(q: Params, names: set<string>)
    requires names == q.Keys
    ensures Restrict(q, names) == q
  {
    forall x ensures (x in Restrict(q, names) <==> x in q) && (x in q ==> Restrict(q, names)[x] == q[x]) {
      RestrictAt(q, names, x);
    }
  }

  lemma RestrictNone(q: Params, names: set<string>)
    requires names * q.Keys == {}
    ensures Restrict(q, names) == map[]
  {
    forall x ensures x !in Restrict(q, names) {
      RestrictAt(q, names, x);
      assert x !in names * q.Keys;
    }
  }

  /** Nothing is kept or moved from an empty dictionary. */
  lemma NothingSeen(remap: Remap, seen: Params)
    requires ValidRemap(remap)
    requires seen == map[]
    ensures Kept(remap, seen) + Moved(remap, seen) == map[]
  {
    MovedEmpty(remap, seen);
    KeptAll(remap, seen);
  }

  /** `a + t` is `b` when `a` is `b` and `t` is empty. */
  lemma UnionEmpty(a: Params, b: Params, t: Params)
    requires a == b && t == map[]
    ensures a + t == b && t + a == b
  {
  }

  lemma PartialStart(remap: Remap, q: Params)
    requires ValidRemap(remap)
    ensures Partial(remap, q, {}) == q
  {
    var seen := Restrict(q, {});
    RestrictNone(q, {});
    NothingSeen(remap, seen);
    RestrictAll(q, q.Keys - {});
    UnionEmpty(Restrict(q, q.Keys - {}), q, Kept(remap, seen) + Moved(remap, seen));
  }

  lemma PartialDone(remap: Remap, q: Params, dates: Dates, params: Params)
    requires ValidRemap(remap)
    requires q == ConvertDates(params, dates)
    ensures Partial(remap, q, q.Keys) == Normalize(remap, params, dates)
  {
    RestrictAll(q, q.Keys);
    RestrictNone(q, q.Keys - q.Keys);
    var tail := Kept(remap, q) + Moved(remap, q);
    UnionEmpty(tail, tail, Restrict(q, q.Keys - q.Keys));
  }

  /** Visiting `n` removes it from the unvisited part ... */
  lemma RestrictRemove(q: Params, done: set<string>, n: string)
    ensures Restrict(q, q.Keys - (done + {n})) == Restrict(q, q.Keys - done) - {n}
  {
    var a, b := Restrict(q, q.Keys - (done + {n})), Restrict(q, q.Keys - done) - {n};
    forall x ensures (x in a <==> x in b) && (x in a ==> a[x] == b[x]) {
      RestrictAt(q, q.Keys - done, x);
      RestrictAt(q, q.Keys - (done + {n}), x);
    }
  }

  /** ... and adds it, with its snapshot value, to the visited part. */
  lemma RestrictAdd(q: Params, done: set<string>, n: string)
    requires n in q
    ensures Restrict(q, done + {n}) == Restrict(q, done)[n := q[n]]
  {
    var a, b := Restrict(q, done + {n}), Restrict(q, done)[n := q[n]];
    forall x ensures (x in a <==> x in b) && (x in a ==> a[x] == b[x]) {
      RestrictAt(q, done, x);
      RestrictAt(q, done + {n}, x);
    }
  }

  /** Adding one visited entry to the kept part. */
  lemma KeptInsert(remap: Remap, seen: Params, n: string, v: Value)
    requires n !in seen
    ensures Kept(remap, seen[n := v]) == if v != Null && n !in remap then Kept(remap, seen)[n := v] else Kept(remap, seen)
  {
    var after := Kept(remap, seen[n := v]);
    var expected := if v != Null && n !in remap then Kept(remap, seen)[n := v] else Kept(remap, seen);
    forall x ensures (x in after <==> x in expected) && (x in after ==> after[x] == expected[x]) {
      KeptAt(remap, seen[n := v], x);
      KeptAt(remap, seen, x);
    }
  }

  /** Adding one visited entry to the moved part. */
  lemma MovedInsert(remap: Remap, seen: Params, n: string, v: Value)
    requires ValidRemap(remap)
    requires n !in seen
    ensures Moved(remap, seen[n := v]) == if v != Null && n in remap then Moved(remap, seen)[remap[n] := v] else Moved(remap, seen)
  {
    var before, after := Moved(remap, seen), Moved(remap, seen[n := v]);
    var expected := if v != Null && n in remap then before[remap[n] := v] else before;
    MovedInsertSound(remap, seen, n, v, expected);
    MovedInsertComplete(remap, seen, n, v, expected);
    SameEntries(after, expected);
  }

  /** Two dictionaries with the same entries are equal. */
  lemma SameEntries(a: Params, b: Params)
    requires forall w | w in a :: w in b && a[w] == b[w]
    requires forall w | w in b :: w in a
    ensures a == b
  {
  }

  /** Every entry moved after the insertion was expected, with the expected value. */
  lemma MovedInsertSound(remap: Remap, seen: Params, n: string, v: Value, expected: Params)
    requires ValidRemap(remap)
    requires n !in seen
    requires expected == if v != Null && n in remap then Moved(remap, seen)[remap[n] := v] else Moved(remap, seen)
    ensures forall w | w in Moved(remap, seen[n := v]) :: w in expected && Moved(remap, seen[n := v])[w] == expected[w]
  {
    var seen' := seen[n := v];
    forall w | w in Moved(remap, seen') ensures w in expected && Moved(remap, seen')[w] == expected[w] {
      var k := MovedSource(remap, seen', w);
      if k != n {
        MovedFrom(remap, seen, k);
      }
    }
  }

  /** Every expected entry is moved after the insertion. */
  lemma MovedInsertComplete(remap: Remap, seen: Params, n: string, v: Value, expected: Params)
    requires ValidRemap(remap)
    requires n !in seen
    requires expected == if v != Null && n in remap then Moved(remap, seen)[remap[n] := v] else Moved(remap, seen)
    ensures forall w | w in expected :: w in Moved(remap, seen[n := v])
  {
    var seen' := seen[n := v];
    forall w | w in expected ensures w in Moved(remap, seen') {
      if w in Moved(remap, seen) {
        var k := MovedSource(remap, seen, w);
        MovedFrom(remap, seen', k);
      } else {
        MovedFrom(remap, seen', n);
      }
    }
  }

  /** Map identities behind the four cases of one visit. */
  lemma VisitOverridden(rest: Params, kept: Params, kept': Params, moved: Params, n: string, v: Value)
    requires n in rest && n in moved
    requires kept' == kept || kept' == kept[n := v]
    ensures (rest - {n}) + (kept' + moved) == rest + (kept + moved)
  {
  }

  lemma VisitDeleted(rest: Params, kept: Params, moved: Params, n: string)
    requires n !in kept && n !in moved
    ensures (rest - {n}) + (kept + moved) == (rest + (kept + moved)) - {n}
  {
  }

  lemma VisitMoved(rest: Params, kept: Params, moved: Params, n: string, w: string, v: Value)
    requires n !in kept && n !in moved && n != w
    ensures (rest - {n}) + (kept + moved[w := v]) == ((rest + (kept + moved)) - {n})[w := v]
  {
  }

  lemma VisitKept(rest: Params, kept: Params, moved: Params, n: string)
    requires n in rest && n !in kept && n !in moved
    ensures (rest - {n}) + (kept[n := rest[n]] + moved) == rest + (kept + moved)
  {
  }

  /** Before its visit, a name holds its snapshot value unless a moved entry overrode it. */
  lemma PartialAt(remap: Remap, q: Params, done: set<string>, n: string)
    requires ValidRemap(remap)
    requires n in q && n !in done
    ensures n in Partial(remap, q, done)
    ensures var moved := Moved(remap, Restrict(q, done));
      Partial(remap, q, done)[n] == if n in moved then moved[n] else q[n]
  {
    var seen := Restrict(q, done);
    RestrictAt(q, q.Keys - done, n);
    RestrictAt(q, done, n);
    KeptAt(remap, seen, n);
    UnionAt(Kept(remap, seen), Moved(remap, seen), n);
    UnionAt(Restrict(q, q.Keys - done), Kept(remap, seen) + Moved(remap, seen), n);
  }

  /**
   * One visit of `name` keeps `Partial` in step: the entry is deleted when
   * its current value is `None`, moved to its wire name when it has one, and
   * left alone otherwise.
   */
  lemma VisitStep(remap: Remap, q: Params, done: set<string>, name: string)
    requires ValidRemap(remap)
    requires name in q && name !in done
    ensures name in Partial(remap, q, done)
    ensures var m := Partial(remap, q, done);
      Partial(remap, q, done + {name}) ==
        if m[name] == Null then m - {name}
        else if name in remap && remap[name] != "" then (m - {name})[remap[name] := m[name]]
        else m
  {
    PartialAt(remap, q, done, name);
    var seen, seen' := Restrict(q, done), Restrict(q, done + {name});
    var rest, rest' := Restrict(q, q.Keys - done), Restrict(q, q.Keys - (done + {name}));
    RestrictRemove(q, done, name);
    RestrictAdd(q, done, name);
    RestrictAt(q, done, name);
    RestrictAt(q, q.Keys - done, name);
    var v := q[name];
    KeptInsert(remap, seen, name, v);
    MovedInsert(remap, seen, name, v);
    KeptAt(remap, seen, name);
    var kept, moved := Kept(remap, seen), Moved(remap, seen);
    MovedKey(remap, seen, name);
    if name in moved {
      VisitOverridden(rest, kept, Kept(remap, seen'), moved, name, v);
    } else if v == Null {
      VisitDeleted(rest, kept, moved, name);
    } else if name in remap {
      VisitMoved(rest, kept, moved, name, remap[name], v);
    } else {
      VisitKept(rest, kept, moved, name);
    }
  }

  /** Visiting one more name of the to-do set. */
  lemma DoneStep(keys: set<string>, todo: set<string>, name: string)
    requires name in todo && todo <= keys
    ensures keys - todo + {name} == keys - (todo - {name})
  {
  }

  lemma DoneNone(keys: set<string>)
    ensures keys - keys == {}
  {
  }

  lemma DoneAll(keys: set<string>, todo: set<string>)
    requires todo == {}
    ensures keys - todo == keys
  {
  }

  // ---------------------------------------------------------------------
  // The rename loop as written

  /**
   * One visit of the source's rename loop: the SNAPSHOT value decides
   * whether the entry is deleted, while the move takes the current value.
   */
  function VisitAsWritten(remap: Remap, m: Params, snapshot: Params, name: string): Params
  {
    if name in snapshot && snapshot[name] == Null then m - {name}
    else if name in remap && remap[name] != "" && name in m then (m - {name})[remap[name] := m[name]]
    else m
  }

  /** The source's rename loop over the snapshot's names in dictionary order `order`. */
  function RenameAsWritten(remap: Remap, m: Params, snapshot: Params, order: seq<string>): Params
    decreases |order|
  {
    if order == [] then m
    else RenameAsWritten(remap, VisitAsWritten(remap, m, snapshot, order[0]), snapshot, order[1..])
  }

  /** `order` lists the names of `params`, each once: a dictionary's iteration order. */
  predicate IsListing(order: seq<string>, params: Params)
  {
    && (forall i, j | 0 <= i < j < |order| :: order[i] != order[j])
    && (forall x | x in params :: x in order)
    && (forall i | 0 <= i < |order| :: order[i] in params)
  }

  /** `_prepare_params` exactly as written, for the iteration order `order`. */
  function PrepareAsWritten(remap: Remap, params: Params, dates: Dates, order: seq<string>): Params
  {
    var q := ConvertDates(params, dates);
    RenameAsWritten(remap, q, q, order)
  }

  /**
   * The one input shape on which the snapshot matters: a logical name with a
   * value next to its own wire name holding `None`.
   */
  predicate ShadowedNull(remap: Remap, params: Params)
  {
    exists k | k in remap :: k in params && params[k] != Null && remap[k] in params && params[remap[k]] == Null
  }

  lemma ShadowedNullConverted(remap: Remap, params: Params, dates: Dates)
    requires ValidRemap(remap)
    requires !ShadowedNull(remap, params)
    ensures !ShadowedNull(remap, ConvertDates(params, dates))
  {
    var q := ConvertDates(params, dates);
    forall k | k in remap && k in q && q[k] != Null && remap[k] in q
      ensures q[remap[k]] != Null
    {
      ConvertAt(params, dates, k);
      ConvertAt(params, dates, remap[k]);
    }
  }

  /** Without a shadowed `None`, a name's current value is `None` exactly when its snapshot value is. */
  lemma PartialNullAgrees(remap: Remap, q: Params, done: set<string>, name: string)
    requires ValidRemap(remap) && !ShadowedNull(remap, q)
    requires name in q && name !in done
    ensures name in Partial(remap, q, done)
    ensures Partial(remap, q, done)[name] == Null <==> q[name] == Null
  {
    PartialAt(remap, q, done, name);
    var seen := Restrict(q, done);
    if name in Moved(remap, seen) {
      var k := MovedSource(remap, seen, name);
      RestrictAt(q, done, k);
      assert k in remap && k in q && q[k] != Null && remap[k] in q;
    }
  }

  /** Without a shadowed `None`, the visit as written is the corrected visit. */
  lemma AsWrittenVisitAgrees(remap: Remap, q: Params, done: set<string>, name: string)
    requires ValidRemap(remap) && !ShadowedNull(remap, q)
    requires name in q && name !in done
    ensures VisitAsWritten(remap, Partial(remap, q, done), q, name) == Partial(remap, q, done + {name})
  {
    VisitStep(remap, q, done, name);
    PartialNullAgrees(remap, q, done, name);
  }

  lemma DoneCovered(keys: set<string>, done: set<string>, order: seq<string>)
    requires order == [] && forall x :: x in keys <==> x in done || x in order
    ensures done == keys
  {
  }

  /** After visiting the head of `order`, its tail lists what is left. */
  lemma TailLeft(keys: set<string>, done: set<string>, order: seq<string>)
    requires order != []
    requires forall i, j | 0 <= i < j < |order| :: order[i] != order[j]
    requires forall x :: x in keys <==> x in done || x in order
    requires forall x | x in order :: x !in done
    ensures forall i, j | 0 <= i < j < |order[1..]| :: order[1..][i] != order[1..][j]
    ensures forall x :: x in keys <==> x in done + {order[0]} || x in order[1..]
    ensures forall x | x in order[1..] :: x !in done + {order[0]}
  {
    var n, tail := order[0], order[1..];
    forall x | x in tail ensures x !in done + {n} {
      var j :| 0 <= j < |tail| && tail[j] == x;
      assert order[j + 1] == x;
    }
    forall i, j | 0 <= i < j < |tail| ensures tail[i] != tail[j] {
      assert tail[i] == order[i + 1] && tail[j] == order[j + 1];
    }
    forall x ensures x in keys <==> x in done + {n} || x in tail {
      assert x in order <==> x == n || x in tail;
    }
  }

  /** The rest of the loop, as written, finishes the corrected loop. */
  lemma {:induction false} AsWrittenFrom(remap: Remap, q: Params, done: set<string>, order: seq<string>)
    requires ValidRemap(remap) && !ShadowedNull(remap, q)
    requires forall i, j | 0 <= i < j < |order| :: order[i] != order[j]
    requires forall x :: x in q <==> x in done || x in order
    requires forall x | x in order :: x !in done
    ensures RenameAsWritten(remap, Partial(remap, q, done), q, order) == Partial(remap, q, q.Keys)
    decreases |order|
  {
    if order == [] {
      DoneCovered(q.Keys, done, order);
    } else {
      AsWrittenVisitAgrees(remap, q, done, order[0]);
      TailLeft(q.Keys, done, order);
      AsWrittenFrom(remap, q, done + {order[0]}, order[1..]);
    }
  }

  /**
   * On every input without a shadowed `None`, `_prepare_params` as written
   * gives the intended result, whatever the dictionary's order.
   */
  lemma AsWrittenAgrees(remap: Remap, params: Params, dates: Dates, order: seq<string>)
    requires ValidRemap(remap)
    requires IsListing(order, params) && !ShadowedNull(remap, params)
    ensures PrepareAsWritten(remap, params, dates, order) == Normalize(remap, params, dates)
  {
    var q := ConvertDates(params, dates);
    ShadowedNullConverted(remap, params, dates);
    forall x ensures x in q <==> x in {} || x in order {
      ConvertAt(params, dates, x);
    }
    PartialStart(remap, q);
    AsWrittenFrom(remap, q, {}, order);
    PartialDone(remap, q, dates, params);
  }

  /**
   * For every entry `k` to `w` of a rename table: given `{k: v, w: None}`
   * with `v` not `None`, the loop as written yields nothing when `k` is
   * listed first and `{w: v}` when `w` is, while the intended result is
   * `{w: v}`.
   */
  lemma ShadowedOrders(remap: Remap, k: string, v: Value, dates: Dates)
    requires ValidRemap(remap) && k in remap && v != Null
    ensures var w := remap[k]; var p := map[k := v, w := Null];
      && IsListing([k, w], p) && IsListing([w, k], p)
      && ShadowedNull(remap, p)
      && PrepareAsWritten(remap, p, dates, [k, w]) == map[]
      && PrepareAsWritten(remap, p, dates, [w, k]) == map[w := v]
      && Normalize(remap, p, dates) == map[w := v]
  {
    var w := remap[k];
    var p := map[k := v, w := Null];
    assert ShadowedNull(remap, p) by {
      assert k in remap && k in p && p[k] != Null && remap[k] in p && p[remap[k]] == Null;
    }
    ConvertDatesStable(p, dates);
    LogicalFirst(remap, k, v, p);
    WireFirst(remap, k, v, p);
    KeptNone(remap, p, k);
    MovedOne(remap, p, k);
    UnionEmpty(map[w := v], map[w := v], Kept(remap, p));
  }

  lemma LogicalFirst(remap: Remap, k: string, v: Value, p: Params)
    requires ValidRemap(remap) && k in remap && v != Null
    requires p == map[k := v, remap[k] := Null]
    ensures RenameAsWritten(remap, p, p, [k, remap[k]]) == map[]
  {
    var w := remap[k];
    var first := VisitAsWritten(remap, p, p, k);
    assert first == map[w := v];
    assert VisitAsWritten(remap, first, p, w) == map[];
    assert [k, w][1..] == [w];
    assert RenameAsWritten(remap, first, p, [w]) == RenameAsWritten(remap, map[], p, []);
  }

  lemma WireFirst(remap: Remap, k: string, v: Value, p: Params)
    requires ValidRemap(remap) && k in remap && v != Null
    requires p == map[k := v, remap[k] := Null]
    ensures RenameAsWritten(remap, p, p, [remap[k], k]) == map[remap[k] := v]
  {
    var w := remap[k];
    var other := VisitAsWritten(remap, p, p, w);
    assert other == map[k := v];
    assert VisitAsWritten(remap, other, p, k) == map[w := v];
    assert [w, k][1..] == [k];
    assert RenameAsWritten(remap, other, p, [k]) == RenameAsWritten(remap, map[w := v], p, []);
  }

  /**
   * The counterexample on the real table:
   * `delete_messages(recipients_address="a@b", **{"recipients.address": None})`
   * sends no filter at all when the logical name comes first in the keyword
   * dictionary: the client sends a DELETE of `messages/` with an empty query.
   */
  lemma AsWrittenLosesShadowedFilter(dates: Dates)
    ensures ValidRemap(ParamsRemap)
    ensures var p := map["recipients_address" := Str("a@b"), "recipients.address" := Null];
      && PrepareAsWritten(ParamsRemap, p, dates, ["recipients_address", "recipients.address"]) == map[]
      && Normalize(ParamsRemap, p, dates) == map["recipients.address" := Str("a@b")]
  {
    ParamsRemapValid();
    assert ParamsRemap["recipients_address"] == "recipients.address";
    ShadowedOrders(ParamsRemap, "recipients_address", Str("a@b"), dates);
  }

  lemma KeptNone(remap: Remap, p: Params, k: string)
    requires ValidRemap(remap) && k in remap
    requires p.Keys == {k, remap[k]} && p[remap[k]] == Null
    ensures Kept(remap, p) == map[]
  {
    forall x ensures x !in Kept(remap, p) {
      KeptAt(remap, p, x);
    }
  }

  lemma MovedOne(remap: Remap, p: Params, k: string)
    requires ValidRemap(remap) && k in remap
    requires p.Keys == {k, remap[k]} && p[k] != Null
    ensures Moved(remap, p) == map[remap[k] := p[k]]
  {
    MovedFrom(remap, p, k);
    forall x | x in Moved(remap, p) ensures x == remap[k] {
      var k' := MovedSource(remap, p, x);
    }
  }

  // ---------------------------------------------------------------------
  // `_prepare_params`

  /**
   * `_prepare_params`, with the rename loop reading each name's current
   * value rather than the snapshot's (see `AsWrittenLosesShadowedFilter`).
   * The loop visits the snapshot's names in an arbitrary order, and the
   * result is the same for every order.
   */
  method PrepareParams(remap: Remap, params: Params, dates: Dates) returns (r: Params)
    requires ValidRemap(remap)
    ensures r == Normalize(remap, params, dates)
  {
    r := params;
    for i := 0 to |DateFields|
      invariant r.Keys == params.Keys
      invariant forall x | x in r ::
        r[x] == if x in DateFields[..i] && params[x].Stamp? then Str(UtcIso(dates, params[x].at)) else params[x]
    {
      var field := DateFields[i];
      if field in r {
        var value := r[field];
        if value != Null {
          if value.Stamp? {
            r := r[field := Str(UtcIso(dates, value.at))];
          }
        }
      }
    }
    forall x ensures (x in r <==> x in ConvertDates(params, dates)) && (x in r ==> r[x] == ConvertDates(params, dates)[x]) {
      ConvertAt(params, dates, x);
    }
    assert r == ConvertDates(params, dates);
    ghost var snapshot := r;
    PartialStart(remap, snapshot);
    var todo := r.Keys;
    DoneNone(todo);
    while todo != {}
      invariant todo <= snapshot.Keys
      invariant r == Partial(remap, snapshot, snapshot.Keys - todo)
      decreases |todo|
    {
      var name :| name in todo;
      VisitStep(remap, snapshot, snapshot.Keys - todo, name);
      DoneStep(snapshot.Keys, todo, name);
      var value := r[name];
      if value == Null {
        r := r - {name};
      } else if name in remap && remap[name] != "" {
        r := (r - {name})[remap[name] := value];
      }
      todo := todo - {name};
    }
    DoneAll(snapshot.Keys, todo);
    PartialDone(remap, snapshot, dates, params);
  }
}
