/**
  The course catalog the bot loads once at start-up from the spreadsheet
  (main.py, `get_courses_from_google_sheets`): direction -> course type ->
  list of courses.

  Python dicts keep insertion order and the bot shows their keys as
  buttons in that order, so both levels are association sequences here.
  `Build` is the structuring loop; `Dedup`, `Directions`, `TypesUnder` and
  `Matching` describe its result directly in terms of the rows, and the
  `Build*` lemmas connect the two.
*/
module Courses {
  import opened Strings

  /** One spreadsheet record: the four columns the builder reads, untrimmed. */
  datatype Row = Row(direction: string, courseType: string, name: string, link: string)

  datatype Course = Course(name: string, link: string)

  /** The courses of one type within a direction, in row order. */
  datatype TypeEntry = TypeEntry(courseType: string, courses: seq<Course>)

  /** One direction and its course types, in first-appearance order. */
  datatype DirEntry = DirEntry(direction: string, types: seq<TypeEntry>)

  type Catalog = seq<DirEntry>

  // ---------------------------------------------------------------------
  // Reading the catalog

  /** `list(COURSES.keys())`: the directions in insertion order. */
  function Keys(cat: Catalog): seq<string> {
    if |cat| == 0 then [] else [cat[0].direction] + Keys(cat[1..])
  }

  /** The keys of one direction's course-type dict, in insertion order. */
  function TypeNames(types: seq<TypeEntry>): seq<string> {
    if |types| == 0 then [] else [types[0].courseType] + TypeNames(types[1..])
  }

  /** `COURSES.get(d, {})`, as a sequence of entries. */
  function TypesOf(cat: Catalog, d: string): seq<TypeEntry> {
    if |cat| == 0 then []
    else if cat[0].direction == d then cat[0].types
    else TypesOf(cat[1..], d)
  }

  /** `list(COURSES[d].keys())`; empty when `d` is not a direction. */
  function TypeKeys(cat: Catalog, d: string): seq<string> {
    TypeNames(TypesOf(cat, d))
  }

  /** `types.get(t, [])`. */
  function CoursesIn(types: seq<TypeEntry>, t: string): seq<Course> {
    if |types| == 0 then []
    else if types[0].courseType == t then types[0].courses
    else CoursesIn(types[1..], t)
  }

  /** `COURSES.get(d, {}).get(t, [])`. */
  function Lookup(cat: Catalog, d: string, t: string): seq<Course> {
    CoursesIn(TypesOf(cat, d), t)
  }

  function CountIn(types: seq<TypeEntry>): nat {
    if |types| == 0 then 0 else |types[0].courses| + CountIn(types[1..])
  }

  /** The number of courses stored in the catalog. */
  function Count(cat: Catalog): nat {
    if |cat| == 0 then 0 else CountIn(cat[0].types) + Count(cat[1..])
  }

  // ---------------------------------------------------------------------
  // Shape of a catalog

  predicate Distinct(xs: seq<string>) {
    forall i, j :: 0 <= i < j < |xs| ==> xs[i] != xs[j]
  }

  /** A direction's type dict: distinct keys, at least one key, no empty list. */
  predicate TypesWellFormed(types: seq<TypeEntry>) {
    && |types| > 0
    && Distinct(TypeNames(types))
    && forall k :: 0 <= k < |types| ==> |types[k].courses| > 0
  }

  /** Distinct directions, each with a well-formed type dict. */
  predicate WellFormed(cat: Catalog) {
    && Distinct(Keys(cat))
    && forall i :: 0 <= i < |cat| ==> TypesWellFormed(cat[i].types)
  }

  predicate CourseTrimmed(c: Course) {
    IsTrimmed(c.name) && IsTrimmed(c.link)
  }

  predicate TypesTrimmed(types: seq<TypeEntry>) {
    forall k :: 0 <= k < |types| ==>
      && IsTrimmed(types[k].courseType)
      && forall m :: 0 <= m < |types[k].courses| ==> CourseTrimmed(types[k].courses[m])
  }

  /** Every stored direction, type, name and link is free of surrounding whitespace. */
  predicate AllTrimmed(cat: Catalog) {
    forall i :: 0 <= i < |cat| ==> IsTrimmed(cat[i].direction) && TypesTrimmed(cat[i].types)
  }

  // ---------------------------------------------------------------------
  // Building

  /** Appends `c` to the list for type `t`, creating the type key last if absent. */
  function AddToTypes(types: seq<TypeEntry>, t: string, c: Course): seq<TypeEntry> {
    if |types| == 0 then [TypeEntry(t, [c])]
    else if types[0].courseType == t then [types[0].(courses := types[0].courses + [c])] + types[1..]
    else [types[0]] + AddToTypes(types[1..], t, c)
  }

  /** Appends `c` under `(d, t)`, creating the direction key last if absent. */
  function Add(cat: Catalog, d: string, t: string, c: Course): Catalog {
    if |cat| == 0 then [DirEntry(d, [TypeEntry(t, [c])])]
    else if cat[0].direction == d then [cat[0].(types := AddToTypes(cat[0].types, t, c))] + cat[1..]
    else [cat[0]] + Add(cat[1..], d, t, c)
  }

  /** The trimmed course a row contributes. */
  function CourseOf(r: Row): Course {
    Course(Trim(r.name), Trim(r.link))
  }

  /** One iteration of the structuring loop: trim the four fields, then add. */
  function Insert(cat: Catalog, r: Row): Catalog {
    Add(cat, Trim(r.direction), Trim(r.courseType), CourseOf(r))
  }

  /** The structuring loop over all rows, from the empty dict. */
  function Build(rows: seq<Row>): Catalog {
    if |rows| == 0 then [] else Insert(Build(rows[..|rows| - 1]), rows[|rows| - 1])
  }

  // ---------------------------------------------------------------------
  // The result described from the rows alone

  /** `xs` without repetitions, each element kept at its first occurrence. */
  function Dedup(xs: seq<string>): seq<string> {
    if |xs| == 0 then []
    else
      var d := Dedup(xs[..|xs| - 1]);
      if xs[|xs| - 1] in d then d else d + [xs[|xs| - 1]]
  }

  /** The trimmed direction of every row, in row order. */
  function Directions(rows: seq<Row>): seq<string> {
    if |rows| == 0 then [] else Directions(rows[..|rows| - 1]) + [Trim(rows[|rows| - 1].direction)]
  }

  /** The trimmed course type of every row whose trimmed direction is `d`. */
  function TypesUnder(rows: seq<Row>, d: string): seq<string> {
    if |rows| == 0 then []
    else
      var r := rows[|rows| - 1];
      TypesUnder(rows[..|rows| - 1], d) + (if Trim(r.direction) == d then [Trim(r.courseType)] else [])
  }

  /** The trimmed courses of the rows whose trimmed keys are `(d, t)`, in row order. */
  function Matching(rows: seq<Row>, d: string, t: string): seq<Course> {
    if |rows| == 0 then []
    else
      var r := rows[|rows| - 1];
      Matching(rows[..|rows| - 1], d, t)
        + (if Trim(r.direction) == d && Trim(r.courseType) == t then [CourseOf(r)] else [])
  }

  /** Position of the first occurrence of `x` in `xs`. */
  function IndexOf(xs: seq<string>, x: string): (k: nat)
    requires x in xs
    ensures k < |xs| && xs[k] == x
    ensures forall j :: 0 <= j < k ==> xs[j] != x
  {
    if xs[0] == x then 0 else 1 + IndexOf(xs[1..], x)
  }

  // ---------------------------------------------------------------------
  // Dedup

  lemma {:induction false} DedupMembers(xs: seq<string>)
    ensures forall x :: x in Dedup(xs) <==> x in xs
  {
    if |xs| > 0 {
      var p := xs[..|xs| - 1];
      DedupMembers(p);
      assert xs == p + [xs[|xs| - 1]];
      DedupSnoc(p, xs[|xs| - 1]);
    }
  }

  lemma {:induction false} DedupDistinct(xs: seq<string>)
    ensures Distinct(Dedup(xs))
  {
    if |xs| > 0 {
      DedupDistinct(xs[..|xs| - 1]);
    }
  }

  /** Extending the input by one element extends `Dedup` by it unless it is a repeat. */
  lemma DedupSnoc(xs: seq<string>, x: string)
    ensures Dedup(xs + [x]) == if x in Dedup(xs) then Dedup(xs) else Dedup(xs) + [x]
  {
    assert (xs + [x])[..|xs|] == xs;
  }

  /** An element of `p` keeps its first position when `p` is extended. */
  lemma IndexOfExtend(p: seq<string>, x: string, y: string)
    requires y in p
    ensures y in p + [x] && IndexOf(p + [x], y) == IndexOf(p, y)
  {
    var q := p + [x];
    assert q[IndexOf(p, y)] == y;
  }

  /** A new element's first position is the end of the old input. */
  lemma IndexOfNew(p: seq<string>, x: string)
    requires x !in p
    ensures IndexOf(p + [x], x) == |p|
  {
    var q := p + [x];
    assert q[|p|] == x;
  }

  /** `Dedup` lists the distinct elements in order of first occurrence. */
  lemma {:induction false} DedupOrder(xs: seq<string>)
    ensures forall y :: y in Dedup(xs) ==> y in xs
    ensures forall i, j :: 0 <= i < j < |Dedup(xs)| ==>
      IndexOf(xs, Dedup(xs)[i]) < IndexOf(xs, Dedup(xs)[j])
  {
    DedupMembers(xs);
    if |xs| > 0 {
      var p := xs[..|xs| - 1];
      var x := xs[|xs| - 1];
      assert xs == p + [x];
      DedupOrder(p);
      DedupMembers(p);
      DedupSnoc(p, x);
      var d := Dedup(p);
      var e := Dedup(xs);
      forall i, j | 0 <= i < j < |e|
        ensures IndexOf(xs, e[i]) < IndexOf(xs, e[j])
      {
        assert e[i] == d[i] && d[i] in p;
        IndexOfExtend(p, x, d[i]);
        if j < |d| {
          assert e[j] == d[j] && d[j] in p;
          IndexOfExtend(p, x, d[j]);
        } else {
          assert e[j] == x && x !in p;
          IndexOfNew(p, x);
        }
      }
    }
  }

  // ---------------------------------------------------------------------
  // One addition

  lemma {:induction false} TypeNamesAdd(types: seq<TypeEntry>, t: string, c: Course)
    ensures TypeNames(AddToTypes(types, t, c))
         == if t in TypeNames(types) then TypeNames(types) else TypeNames(types) + [t]
  {
    if |types| > 0 && types[0].courseType != t {
      TypeNamesAdd(types[1..], t, c);
    }
  }

  lemma {:induction false} KeysAdd(cat: Catalog, d: string, t: string, c: Course)
    ensures Keys(Add(cat, d, t, c)) == if d in Keys(cat) then Keys(cat) else Keys(cat) + [d]
  {
    if |cat| > 0 && cat[0].direction != d {
      KeysAdd(cat[1..], d, t, c);
    }
  }

  lemma {:induction false} TypeKeysAdd(cat: Catalog, d: string, t: string, c: Course, d': string)
    ensures TypeKeys(Add(cat, d, t, c), d')
         == if d' != d then TypeKeys(cat, d')
            else if t in TypeKeys(cat, d) then TypeKeys(cat, d)
            else TypeKeys(cat, d) + [t]
  {
    var r := Add(cat, d, t, c);
    if |cat| == 0 {
      assert r[1..] == [];
      assert TypeNames([TypeEntry(t, [c])]) == [t];
    } else if cat[0].direction == d {
      assert r[1..] == cat[1..];
      TypeNamesAdd(cat[0].types, t, c);
    } else {
      assert r[1..] == Add(cat[1..], d, t, c);
      TypeKeysAdd(cat[1..], d, t, c, d');
    }
  }

  lemma {:induction false} CoursesInAdd(types: seq<TypeEntry>, t: string, c: Course, t': string)
    ensures CoursesIn(AddToTypes(types, t, c), t')
         == CoursesIn(types, t') + (if t' == t then [c] else [])
  {
    if |types| > 0 && types[0].courseType != t {
      CoursesInAdd(types[1..], t, c, t');
    }
  }

  lemma {:induction false} LookupAdd(cat: Catalog, d: string, t: string, c: Course, d': string, t': string)
    ensures Lookup(Add(cat, d, t, c), d', t')
         == Lookup(cat, d', t') + (if d' == d && t' == t then [c] else [])
  {
    var r := Add(cat, d, t, c);
    if |cat| == 0 {
      assert r[1..] == [];
      assert CoursesIn([TypeEntry(t, [c])], t') == if t' == t then [c] else [];
    } else if cat[0].direction == d {
      assert r[1..] == cat[1..];
      CoursesInAdd(cat[0].types, t, c, t');
    } else {
      assert r[1..] == Add(cat[1..], d, t, c);
      LookupAdd(cat[1..], d, t, c, d', t');
    }
  }

  lemma {:induction false} CountInAdd(types: seq<TypeEntry>, t: string, c: Course)
    ensures CountIn(AddToTypes(types, t, c)) == CountIn(types) + 1
  {
    if |types| > 0 && types[0].courseType != t {
      CountInAdd(types[1..], t, c);
    }
  }

  lemma {:induction false} CountAdd(cat: Catalog, d: string, t: string, c: Course)
    ensures Count(Add(cat, d, t, c)) == Count(cat) + 1
  {
    var r := Add(cat, d, t, c);
    if |cat| == 0 {
      assert r[1..] == [];
      assert CountIn([TypeEntry(t, [c])]) == 1;
    } else if cat[0].direction == d {
      assert r[1..] == cat[1..];
      CountInAdd(cat[0].types, t, c);
    } else {
      assert r[1..] == Add(cat[1..], d, t, c);
      CountAdd(cat[1..], d, t, c);
    }
  }

  lemma DistinctAppend(xs: seq<string>, x: string)
    requires Distinct(xs) && x !in xs
    ensures Distinct(xs + [x])
  {
  }

  lemma {:induction false} AddToTypesWellFormed(types: seq<TypeEntry>, t: string, c: Course)
    requires |types| == 0 || TypesWellFormed(types)
    ensures TypesWellFormed(AddToTypes(types, t, c))
  {
    var r := AddToTypes(types, t, c);
    TypeNamesAdd(types, t, c);
    if t !in TypeNames(types) {
      DistinctAppend(TypeNames(types), t);
    }
    assert forall k :: 0 <= k < |r| ==> |r[k].courses| > 0 by {
      AddToTypesCourses(types, t, c);
    }
  }

  /** Adding never empties a list, and the list it extends becomes non-empty. */
  lemma {:induction false} AddToTypesCourses(types: seq<TypeEntry>, t: string, c: Course)
    requires forall k :: 0 <= k < |types| ==> |types[k].courses| > 0
    ensures var r := AddToTypes(types, t, c);
      forall k :: 0 <= k < |r| ==> |r[k].courses| > 0
  {
    var r := AddToTypes(types, t, c);
    if |types| > 0 {
      if types[0].courseType == t {
        assert forall k :: 1 <= k < |r| ==> r[k] == types[k];
      } else {
        AddToTypesCourses(types[1..], t, c);
        assert forall k :: 1 <= k < |r| ==> r[k] == AddToTypes(types[1..], t, c)[k - 1];
      }
    }
  }

  lemma {:induction false} AddEntries(cat: Catalog, d: string, t: string, c: Course)
    requires forall i :: 0 <= i < |cat| ==> TypesWellFormed(cat[i].types)
    ensures var r := Add(cat, d, t, c);
      forall i :: 0 <= i < |r| ==> TypesWellFormed(r[i].types)
  {
    if |cat| == 0 {
      AddToTypesWellFormed([], t, c);
    } else if cat[0].direction == d {
      AddToTypesWellFormed(cat[0].types, t, c);
      var r := Add(cat, d, t, c);
      assert forall i :: 1 <= i < |r| ==> r[i] == cat[i];
    } else {
      AddEntries(cat[1..], d, t, c);
      var r := Add(cat, d, t, c);
      assert forall i :: 1 <= i < |r| ==> r[i] == Add(cat[1..], d, t, c)[i - 1];
    }
  }

  lemma AddWellFormed(cat: Catalog, d: string, t: string, c: Course)
    requires WellFormed(cat)
    ensures WellFormed(Add(cat, d, t, c))
  {
    KeysAdd(cat, d, t, c);
    if d !in Keys(cat) {
      DistinctAppend(Keys(cat), d);
    }
    AddEntries(cat, d, t, c);
  }

  lemma {:induction false} AddToTypesTrimmed(types: seq<TypeEntry>, t: string, c: Course)
    requires TypesTrimmed(types) && IsTrimmed(t) && CourseTrimmed(c)
    ensures TypesTrimmed(AddToTypes(types, t, c))
  {
    if |types| > 0 && types[0].courseType != t {
      AddToTypesTrimmed(types[1..], t, c);
    }
  }

  lemma {:induction false} AddTrimmed(cat: Catalog, d: string, t: string, c: Course)
    requires AllTrimmed(cat) && IsTrimmed(d) && IsTrimmed(t) && CourseTrimmed(c)
    ensures AllTrimmed(Add(cat, d, t, c))
  {
    if |cat| == 0 {
      AddToTypesTrimmed([], t, c);
    } else if cat[0].direction == d {
      AddToTypesTrimmed(cat[0].types, t, c);
    } else {
      AddTrimmed(cat[1..], d, t, c);
    }
  }

  // ---------------------------------------------------------------------
  // The built catalog

  /** The directions are the trimmed direction cells, each once, in order of
      first appearance. */
  lemma {:induction false} BuildKeys(rows: seq<Row>)
    ensures Keys(Build(rows)) == Dedup(Directions(rows))
  {
    if |rows| > 0 {
      var p := rows[..|rows| - 1];
      var r := rows[|rows| - 1];
      BuildKeys(p);
      DedupSnoc(Directions(p), Trim(r.direction));
      KeysAdd(Build(p), Trim(r.direction), Trim(r.courseType), CourseOf(r));
    }
  }

  /** The course types of direction `d` are the trimmed type cells of its
      rows, each once, in order of first appearance. */
  lemma {:induction false} BuildTypeKeys(rows: seq<Row>, d: string)
    ensures TypeKeys(Build(rows), d) == Dedup(TypesUnder(rows, d))
  {
    if |rows| > 0 {
      var p := rows[..|rows| - 1];
      var r := rows[|rows| - 1];
      BuildTypeKeys(p, d);
      TypeKeysAdd(Build(p), Trim(r.direction), Trim(r.courseType), CourseOf(r), d);
      if Trim(r.direction) == d {
        DedupSnoc(TypesUnder(p, d), Trim(r.courseType));
      } else {
        assert TypesUnder(rows, d) == TypesUnder(p, d);
      }
    }
  }

  /** The list under `(d, t)` holds exactly the trimmed courses of the rows
      with those trimmed keys, in row order. */
  lemma {:induction false} BuildLookup(rows: seq<Row>, d: string, t: string)
    ensures Lookup(Build(rows), d, t) == Matching(rows, d, t)
  {
    if |rows| > 0 {
      var p := rows[..|rows| - 1];
      var r := rows[|rows| - 1];
      BuildLookup(p, d, t);
      LookupAdd(Build(p), Trim(r.direction), Trim(r.courseType), CourseOf(r), d, t);
    }
  }

  /** Every row lands in exactly one list. */
  lemma {:induction false} BuildCount(rows: seq<Row>)
    ensures Count(Build(rows)) == |rows|
  {
    if |rows| > 0 {
      var r := rows[|rows| - 1];
      BuildCount(rows[..|rows| - 1]);
      CountAdd(Build(rows[..|rows| - 1]), Trim(r.direction), Trim(r.courseType), CourseOf(r));
    }
  }

  /** Keys are distinct at both levels and no list is empty. */
  lemma {:induction false} BuildWellFormed(rows: seq<Row>)
    ensures WellFormed(Build(rows))
  {
    if |rows| > 0 {
      var r := rows[|rows| - 1];
      BuildWellFormed(rows[..|rows| - 1]);
      AddWellFormed(Build(rows[..|rows| - 1]), Trim(r.direction), Trim(r.courseType), CourseOf(r));
    }
  }

  /** Every stored string is a trimmed cell: none has surrounding whitespace. */
  lemma {:induction false} BuildTrimmed(rows: seq<Row>)
    ensures AllTrimmed(Build(rows))
  {
    if |rows| > 0 {
      var r := rows[|rows| - 1];
      BuildTrimmed(rows[..|rows| - 1]);
      assert IsTrimmed(Trim(r.direction));
      assert IsTrimmed(Trim(r.courseType));
      assert IsTrimmed(Trim(r.name));
      assert IsTrimmed(Trim(r.link));
      AddTrimmed(Build(rows[..|rows| - 1]), Trim(r.direction), Trim(r.courseType), CourseOf(r));
    }
  }

  /** `get_courses_from_google_sheets`' structuring loop (main.py:71-87),
      with what it computes stated from the rows alone. */
  method BuildCatalog(rows: seq<Row>) returns (cat: Catalog)
    ensures Count(cat) == |rows|
    ensures Keys(cat) == Dedup(Directions(rows))
    ensures WellFormed(cat) && AllTrimmed(cat)
    ensures forall d, t :: Lookup(cat, d, t) == Matching(rows, d, t)
    ensures forall d :: TypeKeys(cat, d) == Dedup(TypesUnder(rows, d))
  {
    cat := [];
    for i := 0 to |rows|
      invariant cat == Build(rows[..i])
    {
      assert rows[..i + 1][..i] == rows[..i];
      cat := Insert(cat, rows[i]);
    }
    assert rows[..|rows|] == rows;
    assert cat == Build(rows);
    BuildKeys(rows);
    BuildCount(rows);
    BuildWellFormed(rows);
    BuildTrimmed(rows);
    forall d, t
      ensures Lookup(cat, d, t) == Matching(rows, d, t)
    {
      BuildLookup(rows, d, t);
    }
    forall d
      ensures TypeKeys(cat, d) == Dedup(TypesUnder(rows, d))
    {
      BuildTypeKeys(rows, d);
    }
  }

  // ---------------------------------------------------------------------
  // Reading a well-formed catalog

  lemma {:induction false} CoursesInNonEmpty(types: seq<TypeEntry>, t: string)
    requires forall k :: 0 <= k < |types| ==> |types[k].courses| > 0
    ensures |CoursesIn(types, t)| > 0 <==> t in TypeNames(types)
  {
    if |types| > 0 && types[0].courseType != t {
      CoursesInNonEmpty(types[1..], t);
    }
  }

  lemma {:induction false} TypesOfEntry(cat: Catalog, d: string)
    requires forall i :: 0 <= i < |cat| ==> TypesWellFormed(cat[i].types)
    ensures d in Keys(cat) ==> TypesWellFormed(TypesOf(cat, d))
    ensures d !in Keys(cat) ==> TypesOf(cat, d) == []
  {
    if |cat| > 0 && cat[0].direction != d {
      TypesOfEntry(cat[1..], d);
    }
  }

  /** In a well-formed catalog the list under `(d, t)` is non-empty exactly
      when `d` is a direction and `t` one of its course types. */
  lemma LookupNonEmpty(cat: Catalog, d: string, t: string)
    requires WellFormed(cat)
    ensures |Lookup(cat, d, t)| > 0 <==> d in Keys(cat) && t in TypeKeys(cat, d)
  {
    TypesOfEntry(cat, d);
    CoursesInNonEmpty(TypesOf(cat, d), t);
  }

  /** A direction of a trimmed catalog is itself trimmed. */
  lemma {:induction false} KeyTrimmed(cat: Catalog, d: string)
    requires AllTrimmed(cat) && d in Keys(cat)
    ensures IsTrimmed(d)
  {
    if cat[0].direction != d {
      assert AllTrimmed(cat[1..]) by {
        forall i | 0 <= i < |cat| - 1
          ensures IsTrimmed(cat[1..][i].direction) && TypesTrimmed(cat[1..][i].types)
        {
          assert cat[1..][i] == cat[i + 1];
        }
      }
      KeyTrimmed(cat[1..], d);
    }
  }

  lemma {:induction false} TypesOfTrimmed(cat: Catalog, d: string)
    requires AllTrimmed(cat)
    ensures TypesTrimmed(TypesOf(cat, d))
  {
    if |cat| > 0 && cat[0].direction != d {
      assert AllTrimmed(cat[1..]) by {
        forall i | 0 <= i < |cat| - 1
          ensures IsTrimmed(cat[1..][i].direction) && TypesTrimmed(cat[1..][i].types)
        {
          assert cat[1..][i] == cat[i + 1];
        }
      }
      TypesOfTrimmed(cat[1..], d);
    }
  }

  lemma {:induction false} TypeNameTrimmed(types: seq<TypeEntry>, t: string)
    requires TypesTrimmed(types) && t in TypeNames(types)
    ensures IsTrimmed(t)
  {
    if types[0].courseType != t {
      assert TypesTrimmed(types[1..]) by {
        forall k | 0 <= k < |types| - 1
          ensures types[1..][k] == types[k + 1]
        {
        }
      }
      TypeNameTrimmed(types[1..], t);
    }
  }

  lemma {:induction false} CoursesInTrimmed(types: seq<TypeEntry>, t: string, i: int)
    requires TypesTrimmed(types) && 0 <= i < |CoursesIn(types, t)|
    ensures CourseTrimmed(CoursesIn(types, t)[i])
  {
    if types[0].courseType != t {
      assert TypesTrimmed(types[1..]) by {
        forall k | 0 <= k < |types| - 1
          ensures types[1..][k] == types[k + 1]
        {
        }
      }
      CoursesInTrimmed(types[1..], t, i);
    }
  }

  /** A course type of a trimmed catalog is itself trimmed. */
  lemma TypeKeyTrimmed(cat: Catalog, d: string, t: string)
    requires AllTrimmed(cat) && t in TypeKeys(cat, d)
    ensures IsTrimmed(t)
  {
    TypesOfTrimmed(cat, d);
    TypeNameTrimmed(TypesOf(cat, d), t);
  }

  /** A course name and link of a trimmed catalog are themselves trimmed. */
  lemma CourseIsTrimmed(cat: Catalog, d: string, t: string, i: int)
    requires AllTrimmed(cat) && 0 <= i < |Lookup(cat, d, t)|
    ensures CourseTrimmed(Lookup(cat, d, t)[i])
  {
    TypesOfTrimmed(cat, d);
    CoursesInTrimmed(TypesOf(cat, d), t, i);
  }
}
