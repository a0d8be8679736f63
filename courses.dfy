/** The course form: an 18-hole template, the per-hole field editor, the
    rebuilding of 18 slots from a stored course, and the filtering of the
    filled-in holes that are sent to the course store. */
module Courses {
  import opened Js

  /** A hole as the form holds it. `par` and `handicap` are numbers once the
      user has typed into them, '' once cleared; `id` is present only for a
      hole that came from the store. */
  datatype Hole = Hole(id: Option<int>, number: int, par: Value, handicap: Value)

  datatype CourseForm = CourseForm(name: string, holes: seq<Hole>)

  /** The two editable fields of a hole row. */
  datatype HoleField = Par | Handicap

  const NoHolesError: string := "Please fill in at least one hole"

  /** The template of a new (or reset) form. */
  function InitialHoles(): (r: seq<Hole>)
    ensures |r| == 18
    ensures forall k :: 0 <= k < 18 ==> r[k] == Hole(None, k + 1, Num(4), Num(1))
  {
    seq(18, k => Hole(None, k + 1, Num(4), Num(1)))
  }

  /** The state of the form on first display and after `resetForm`. */
  function NewCourseForm(): (f: CourseForm)
    ensures f.name == [] && f.holes == InitialHoles()
  {
    CourseForm([], InitialHoles())
  }

  /** `holes.filter(hole => hole.par !== '')` */
  function FilledHoles(holes: seq<Hole>): (r: seq<Hole>)
    ensures |r| <= |holes|
    ensures forall i :: 0 <= i < |r| ==> r[i].par != Str("")
  {
    if holes == [] then []
    else
      var init := holes[..|holes| - 1];
      var last := holes[|holes| - 1];
      assert holes == init + [last];
      if last.par == Str("") then FilledHoles(init) else FilledHoles(init) + [last]
  }

  /** The filter keeps exactly the holes whose par is not ''. */
  lemma {:induction false} FilledHolesMembers(holes: seq<Hole>)
    ensures forall h :: h in FilledHoles(holes) <==> h in holes && h.par != Str("")
  {
    if holes != [] {
      var init := holes[..|holes| - 1];
      FilledHolesMembers(init);
      assert holes == init + [holes[|holes| - 1]];
    }
  }

  /** The filter keeps the order: filtering a concatenation is concatenating
      the filtered parts. */
  lemma {:induction false} FilledHolesAppend(a: seq<Hole>, b: seq<Hole>)
    ensures FilledHoles(a + b) == FilledHoles(a) + FilledHoles(b)
  {
    if b == [] {
      assert a + b == a;
    } else {
      var init := b[..|b| - 1];
      assert (a + b)[..|a + b| - 1] == a + init;
      assert (a + b)[|a + b| - 1] == b[|b| - 1];
      FilledHolesAppend(a, init);
    }
  }

  /** A list whose pars are all filled in passes the filter unchanged. */
  lemma {:induction false} FilledHolesOfFilled(holes: seq<Hole>)
    requires forall k :: 0 <= k < |holes| ==> holes[k].par != Str("")
    ensures FilledHoles(holes) == holes
  {
    if holes != [] {
      var init := holes[..|holes| - 1];
      FilledHolesOfFilled(init);
      assert holes == init + [holes[|holes| - 1]];
    }
  }

  /** A list of holes all without a par passes nothing through the filter. */
  lemma {:induction false} FilledHolesOfBlank(holes: seq<Hole>)
    requires forall k :: 0 <= k < |holes| ==> holes[k].par == Str("")
    ensures FilledHoles(holes) == []
  {
    if holes != [] {
      FilledHolesOfBlank(holes[..|holes| - 1]);
    }
  }

  /** `getValidHoles`: a missing hole list gives no holes; otherwise the
      holes with a par, in order, renumbered 1..k, with a falsy handicap
      replaced by 0 and the store id kept. */
  function GetValidHoles(holes: Option<seq<Hole>>): (r: seq<Hole>)
    ensures holes.None? ==> r == []
    ensures holes.Some? ==> |r| == |FilledHoles(holes.value)|
    ensures forall k :: 0 <= k < |r| ==> r[k].number == k + 1 && r[k].par != Str("")
    ensures holes.Some? ==> forall k :: 0 <= k < |r| ==>
      var h := FilledHoles(holes.value)[k];
      r[k].id == h.id && r[k].par == h.par &&
      (Truthy(h.handicap) ==> r[k].handicap == h.handicap) &&
      (!Truthy(h.handicap) ==> r[k].handicap == Num(0))
  {
    match holes
    case None => []
    case Some(hs) =>
      var kept := FilledHoles(hs);
      seq(|kept|, k requires 0 <= k < |kept| =>
        assert kept[k] in kept;
        Hole(kept[k].id, k + 1, kept[k].par, Or(kept[k].handicap, Num(0))))
  }

  /** Filtering valid holes a second time changes nothing. */
  lemma ValidHolesIdempotent(holes: seq<Hole>)
    ensures GetValidHoles(Some(GetValidHoles(Some(holes)))) == GetValidHoles(Some(holes))
  {
    var v := GetValidHoles(Some(holes));
    FilledHolesOfFilled(v);
  }

  /** The template form is already valid: all 18 holes survive the filter
      unchanged. */
  lemma InitialHolesAreValid()
    ensures GetValidHoles(Some(InitialHoles())) == InitialHoles()
  {
    FilledHolesOfFilled(InitialHoles());
  }

  /** `holes.map((hole, index) => index === holeIndex ? {...hole, [field]: v} : hole)`
      with `v = value === '' ? '' : parseInt(value, 10)`. */
  function HandleHoleChange(holes: seq<Hole>, holeIndex: int, field: HoleField, value: string): (r: seq<Hole>)
    ensures |r| == |holes|
    ensures forall i :: 0 <= i < |holes| && i != holeIndex ==> r[i] == holes[i]
    ensures 0 <= holeIndex < |holes| ==>
      var v := if value == [] then Str("") else ParseInt(value);
      r[holeIndex].id == holes[holeIndex].id &&
      r[holeIndex].number == holes[holeIndex].number &&
      (field == Par ==> r[holeIndex].par == v && r[holeIndex].handicap == holes[holeIndex].handicap) &&
      (field == Handicap ==> r[holeIndex].handicap == v && r[holeIndex].par == holes[holeIndex].par)
  {
    var v := if value == [] then Str("") else ParseInt(value);
    seq(|holes|, i requires 0 <= i < |holes| =>
      if i != holeIndex then holes[i]
      else if field == Par then holes[i].(par := v)
      else holes[i].(handicap := v))
  }

  /** Typing the decimal form of `n` into a par or handicap cell stores `n`. */
  lemma HoleChangeStoresNumber(holes: seq<Hole>, holeIndex: nat, field: HoleField, n: int)
    requires holeIndex < |holes|
    ensures var r := HandleHoleChange(holes, holeIndex, field, IntToString(n));
      (field == Par ==> r[holeIndex].par == Num(n)) &&
      (field == Handicap ==> r[holeIndex].handicap == Num(n))
  {
    ParseIntOfIntToString(n);
  }

  /** Clearing the par of a filled hole removes exactly one hole from the
      valid holes; the other holes keep their relative order. */
  lemma ClearingParDropsHole(holes: seq<Hole>, holeIndex: nat)
    requires holeIndex < |holes| && holes[holeIndex].par != Str("")
    ensures var r := HandleHoleChange(holes, holeIndex, Par, "");
      FilledHoles(r) == FilledHoles(holes[..holeIndex]) + FilledHoles(holes[holeIndex + 1..]) &&
      |GetValidHoles(Some(r))| == |GetValidHoles(Some(holes))| - 1
  {
    var r := HandleHoleChange(holes, holeIndex, Par, "");
    var a, b := holes[..holeIndex], holes[holeIndex + 1..];
    assert holes == a + [holes[holeIndex]] + b;
    assert r == a + [r[holeIndex]] + b;
    FilledHolesAppend(a + [holes[holeIndex]], b);
    FilledHolesAppend(a, [holes[holeIndex]]);
    FilledHolesAppend(a + [r[holeIndex]], b);
    FilledHolesAppend(a, [r[holeIndex]]);
    assert [holes[holeIndex]][..0] == [];
    assert [r[holeIndex]][..0] == [];
  }

  /** `course.holes.find(h => h.number === n)` */
  function FindByNumber(holes: seq<Hole>, n: int): (r: Option<Hole>)
    ensures r.None? <==> forall i :: 0 <= i < |holes| ==> holes[i].number != n
    ensures r.Some? ==>
      exists i :: 0 <= i < |holes| && holes[i] == r.value && holes[i].number == n &&
        (forall j :: 0 <= j < i ==> holes[j].number != n)
  {
    if holes == [] then None
    else if holes[0].number == n then Some(holes[0])
    else
      var r := FindByNumber(holes[1..], n);
      assert forall i :: 1 <= i < |holes| ==> holes[i] == holes[1..][i - 1];
      r
  }

  /** One slot of the edit form: the first stored hole numbered `n`, its
      falsy par or handicap shown as ''; a blank slot when there is none. */
  function EditSlot(course: seq<Hole>, n: int): Hole
  {
    match FindByNumber(course, n)
    case None => Hole(None, n, Str(""), Str(""))
    case Some(h) => Hole(h.id, n, Or(h.par, Str("")), Or(h.handicap, Str("")))
  }

  /** `handleEdit`: always 18 slots numbered 1..18. Slot k holds the id of the
      first stored hole numbered k and its par and handicap, each either
      truthy or ''; a number without a stored hole gives a blank slot. */
  function HandleEdit(course: seq<Hole>): (r: seq<Hole>)
    ensures |r| == 18
    ensures forall k :: 0 <= k < 18 ==> r[k].number == k + 1
    ensures forall k :: 0 <= k < 18 ==>
      (Truthy(r[k].par) || r[k].par == Str("")) &&
      (Truthy(r[k].handicap) || r[k].handicap == Str(""))
    ensures forall k :: 0 <= k < 18 ==>
      (FindByNumber(course, k + 1).None? ==> r[k] == Hole(None, k + 1, Str(""), Str(""))) &&
      (FindByNumber(course, k + 1).Some? ==>
        var h := FindByNumber(course, k + 1).value;
        r[k].id == h.id &&
        (Truthy(h.par) ==> r[k].par == h.par) && (Truthy(h.handicap) ==> r[k].handicap == h.handicap) &&
        (!Truthy(h.par) ==> r[k].par == Str("")) && (!Truthy(h.handicap) ==> r[k].handicap == Str("")))
  {
    seq(18, k => EditSlot(course, k + 1))
  }

  /** In a course whose holes are numbered 1..k in order, hole n is found at
      index n - 1. */
  lemma FindInNumbered(course: seq<Hole>, i: nat)
    requires i < |course|
    requires forall j :: 0 <= j < |course| ==> course[j].number == j + 1
    ensures FindByNumber(course, i + 1) == Some(course[i])
  {
  }

  /** The slots of `handleEdit` for the numbers a course covers. */
  lemma EditPrefix(course: seq<Hole>)
    requires |course| <= 18
    requires forall i :: 0 <= i < |course| ==> course[i].number == i + 1 && Truthy(course[i].par)
    ensures forall i :: 0 <= i < |course| ==>
      HandleEdit(course)[i] == Hole(course[i].id, i + 1, course[i].par, Or(course[i].handicap, Str("")))
  {
    forall i | 0 <= i < |course|
      ensures HandleEdit(course)[i] == Hole(course[i].id, i + 1, course[i].par, Or(course[i].handicap, Str("")))
    {
      FindInNumbered(course, i);
    }
  }

  /** The slots of `handleEdit` past the numbers a course covers are blank. */
  lemma EditTailBlank(course: seq<Hole>)
    requires |course| <= 18
    requires forall i :: 0 <= i < |course| ==> course[i].number == i + 1
    ensures forall i :: |course| <= i < 18 ==> HandleEdit(course)[i].par == Str("")
  {
    forall i | |course| <= i < 18 ensures HandleEdit(course)[i].par == Str("") {
      assert FindByNumber(course, i + 1).None?;
    }
  }

  /** Holes that all have a par followed by holes that have none filter to
      the first part. */
  lemma FilledPrefix(front: seq<Hole>, back: seq<Hole>)
    requires forall i :: 0 <= i < |front| ==> front[i].par != Str("")
    requires forall i :: 0 <= i < |back| ==> back[i].par == Str("")
    ensures FilledHoles(front + back) == front
  {
    FilledHolesOfFilled(front);
    FilledHolesOfBlank(back);
    FilledHolesAppend(front, back);
  }

  /** Two hole lists whose filled holes agree up to the '' shown for a falsy
      handicap have the same valid holes. */
  lemma ValidHolesAgree(e: seq<Hole>, course: seq<Hole>)
    requires forall i :: 0 <= i < |course| ==> course[i].par != Str("")
    requires |FilledHoles(e)| == |course|
    requires forall i :: 0 <= i < |course| ==>
      FilledHoles(e)[i] == Hole(course[i].id, i + 1, course[i].par, Or(course[i].handicap, Str("")))
    ensures GetValidHoles(Some(e)) == GetValidHoles(Some(course))
  {
    FilledHolesOfFilled(course);
    var g, h := GetValidHoles(Some(e)), GetValidHoles(Some(course));
    assert |g| == |h|;
  }

  /** Opening a stored course for editing and saving it without changes sends
      the same holes: rebuilding the 18 slots and filtering them again gives
      back the course's own valid holes. */
  lemma EditThenValidHoles(course: seq<Hole>)
    requires |course| <= 18
    requires forall i :: 0 <= i < |course| ==> course[i].number == i + 1 && Truthy(course[i].par)
    ensures GetValidHoles(Some(HandleEdit(course))) == GetValidHoles(Some(course))
  {
    FilledOfEdit(course);
    EditPrefix(course);
    ValidHolesAgree(HandleEdit(course), course);
  }

  /** The filled slots of `handleEdit` are exactly the course's own holes. */
  lemma FilledOfEdit(course: seq<Hole>)
    requires |course| <= 18
    requires forall i :: 0 <= i < |course| ==> course[i].number == i + 1 && Truthy(course[i].par)
    ensures FilledHoles(HandleEdit(course)) == HandleEdit(course)[..|course|]
  {
    var e := HandleEdit(course);
    var front, back := e[..|course|], e[|course|..];
    EditPrefix(course);
    EditTailBlank(course);
    assert forall i :: 0 <= i < |back| ==> back[i] == e[|course| + i];
    FilledPrefix(front, back);
    assert front + back == e;
  }

  /** The `courseData` built by `handleSubmit`: every valid hole with
      `par: parseInt(par)` and `handicap: parseInt(handicap || 1)`; no valid
      hole at all is refused and nothing is sent. */
  function SubmitCourse(form: CourseForm): (r: Result<CourseForm, string>)
    ensures GetValidHoles(Some(form.holes)) == [] <==> r == Err(NoHolesError)
    ensures GetValidHoles(Some(form.holes)) != [] ==> r.Ok?
    ensures r.Ok? ==> r.value.name == form.name
    ensures r.Ok? ==>
      var valid := GetValidHoles(Some(form.holes));
      |r.value.holes| == |valid| &&
      forall k :: 0 <= k < |valid| ==>
        r.value.holes[k].id == valid[k].id && r.value.holes[k].number == k + 1 &&
        r.value.holes[k].par == ParseIntValue(valid[k].par) &&
        r.value.holes[k].handicap == ParseIntValue(Or(valid[k].handicap, Num(1)))
  {
    var valid := GetValidHoles(Some(form.holes));
    if valid == [] then Err(NoHolesError)
    else
      Ok(CourseForm(form.name, seq(|valid|, k requires 0 <= k < |valid| =>
        Hole(valid[k].id, valid[k].number, ParseIntValue(valid[k].par),
             ParseIntValue(Or(valid[k].handicap, Num(1)))))))
  }

  /** A kept hole whose handicap is blank is sent with handicap 1 (the 0 that
      `getValidHoles` put there never reaches the store); a numeric handicap
      is sent as it is. */
  lemma SentHandicap(form: CourseForm, k: nat)
    requires SubmitCourse(form).Ok?
    requires k < |FilledHoles(form.holes)|
    ensures var h := FilledHoles(form.holes)[k].handicap;
      var sent := SubmitCourse(form).value.holes[k].handicap;
      (!Truthy(h) ==> sent == Num(1)) &&
      (forall n :: h == Num(n) && n != 0 ==> sent == Num(n))
  {
    ParseIntValueOfNum(1);
    forall n | FilledHoles(form.holes)[k].handicap == Num(n) && n != 0 {
      ParseIntValueOfNum(n);
    }
  }

  /** Submitting the untouched template sends 18 holes of par 4, handicap 1. */
  lemma SubmitTemplate()
    ensures var r := SubmitCourse(NewCourseForm());
      r.Ok? && |r.value.holes| == 18 &&
      forall k :: 0 <= k < 18 ==> r.value.holes[k] == Hole(None, k + 1, Num(4), Num(1))
  {
    InitialHolesAreValid();
    ParseIntValueOfNum(4);
    ParseIntValueOfNum(1);
  }
}
