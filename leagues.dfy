/** The leagues page form: its fields, the checks run before a league is
    created or updated, the multi-select of teams, and the copying of a
    stored league into the form for editing. */
module Leagues {
  import opened Js

  /** The form. Text inputs store what was typed (a string); the initial
      number of weeks is the number 1. */
  datatype LeagueForm = LeagueForm(
    name: string,
    course_id: Value,
    number_of_weeks: Value,
    team_ids: seq<Value>,
    start_date: Value)

  /** A league as the league store returns it (fields the form does not use
      are left out). */
  datatype StoredLeague = StoredLeague(
    id: int,
    name: string,
    course_id: Value,
    number_of_weeks: Value,
    team_ids: seq<Value>,
    start_date: Value)

  /** The inputs that report through `handleInputChange`. */
  datatype LeagueField = Name | CourseId | NumberOfWeeks | StartDate

  /** The page state the form handlers touch. */
  datatype LeaguesState = LeaguesState(form: LeagueForm, editing: Option<StoredLeague>, error: Option<string>)

  const NameRequired: string := "League name is required"
  const CourseRequired: string := "Please select a course"
  const WeeksOutOfRange: string := "Number of weeks must be between 1 and 15"

  const MinWeeks: int := 1
  const MaxWeeks: int := 15

  /** The form on first display and after `resetForm`. */
  function InitialLeagueForm(): (f: LeagueForm)
    ensures f.name == [] && f.course_id == Str([]) && f.number_of_weeks == Num(1) &&
      f.team_ids == [] && f.start_date == Str([])
  {
    LeagueForm([], Str([]), Num(1), [], Str([]))
  }

  /** `handleInputChange`: only the named field takes the typed value. */
  function HandleInputChange(st: LeaguesState, field: LeagueField, value: string): (r: LeaguesState)
    ensures r.editing == st.editing && r.error == st.error
    ensures r.form.team_ids == st.form.team_ids
    ensures r.form.name == (if field == Name then value else st.form.name)
    ensures r.form.course_id == (if field == CourseId then Str(value) else st.form.course_id)
    ensures r.form.number_of_weeks == (if field == NumberOfWeeks then Str(value) else st.form.number_of_weeks)
    ensures r.form.start_date == (if field == StartDate then Str(value) else st.form.start_date)
  {
    var f := st.form;
    var g := match field
      case Name => f.(name := value)
      case CourseId => f.(course_id := Str(value))
      case NumberOfWeeks => f.(number_of_weeks := Str(value))
      case StartDate => f.(start_date := Str(value));
    st.(form := g)
  }

  /** `handleTeamSelection`: the values of the selected options, in option
      order, each read with `parseInt(v, 10)`; the error is cleared. */
  function HandleTeamSelection(st: LeaguesState, selected: seq<string>): (r: LeaguesState)
    ensures r.error == None && r.editing == st.editing
    ensures r.form == st.form.(team_ids := r.form.team_ids)
    ensures |r.form.team_ids| == |selected|
    ensures forall i :: 0 <= i < |selected| ==> r.form.team_ids[i] == ParseInt(selected[i])
  {
    var ids := seq(|selected|, i requires 0 <= i < |selected| => ParseInt(selected[i]));
    st.(form := st.form.(team_ids := ids), error := None)
  }

  /** Options are rendered with `value={team.id}`, so selecting teams gives
      back exactly their ids. */
  lemma TeamSelectionGivesIds(st: LeaguesState, ids: seq<int>)
    ensures var selected := seq(|ids|, i requires 0 <= i < |ids| => IntToString(ids[i]));
      HandleTeamSelection(st, selected).form.team_ids == seq(|ids|, i requires 0 <= i < |ids| => Num(ids[i]))
  {
    forall i | 0 <= i < |ids| {
      ParseIntOfIntToString(ids[i]);
    }
  }

  /** `validateLeague`: the first failing check names the error; `None`
      means the league may be sent. The weeks bound compares with `<` and
      `>`, which convert a typed string to a number first. */
  function ValidateLeague(form: LeagueForm): (r: Option<string>)
    ensures IsBlank(form.name) ==> r == Some(NameRequired)
    ensures !IsBlank(form.name) && !Truthy(form.course_id) ==> r == Some(CourseRequired)
    ensures r == None <==>
      !IsBlank(form.name) && Truthy(form.course_id) &&
      !LessThan(form.number_of_weeks, MinWeeks) && !GreaterThan(form.number_of_weeks, MaxWeeks)
    ensures !IsBlank(form.name) && Truthy(form.course_id) && r.Some? ==> r == Some(WeeksOutOfRange)
    ensures r.Some? ==> r.value in {NameRequired, CourseRequired, WeeksOutOfRange}
  {
    if IsBlank(form.name) then Some(NameRequired)
    else if !Truthy(form.course_id) then Some(CourseRequired)
    else if LessThan(form.number_of_weeks, MinWeeks) || GreaterThan(form.number_of_weeks, MaxWeeks)
    then Some(WeeksOutOfRange)
    else None
  }

  /** The weeks check on a number value. */
  lemma WeeksBoundOfNumber(form: LeagueForm, n: int)
    requires !IsBlank(form.name) && Truthy(form.course_id)
    ensures ValidateLeague(form.(number_of_weeks := Num(n))) == None <==> MinWeeks <= n <= MaxWeeks
  {
  }

  /** The weeks check on the decimal text of a number. */
  lemma WeeksBoundOfText(form: LeagueForm, n: int)
    requires !IsBlank(form.name) && Truthy(form.course_id)
    ensures ValidateLeague(form.(number_of_weeks := Str(IntToString(n)))) == None <==> MinWeeks <= n <= MaxWeeks
  {
    StringToNumberOfIntToString(n);
  }

  /** The weeks check on a cleared input. */
  lemma WeeksBoundOfCleared(form: LeagueForm)
    requires !IsBlank(form.name) && Truthy(form.course_id)
    ensures ValidateLeague(form.(number_of_weeks := Str([]))) == Some(WeeksOutOfRange)
  {
    assert ToNumber(Str([])) == Num(0) by {
      assert Trim([]) == [];
    }
  }

  /** Week text that reads as NaN passes: both comparisons with NaN are
      false. */
  lemma NaNWeeksPass(form: LeagueForm, w: string)
    requires !IsBlank(form.name) && Truthy(form.course_id)
    requires StringToNumber(w) == NaN
    ensures ValidateLeague(form.(number_of_weeks := Str(w))) == None
  {
  }

  /** Week text that is numeric but not an integer reads as NaN in this
      model, so neither bound refuses it; `Number` would read "0.5", "16.5"
      and "1e2" as numbers outside 1..15. */
  lemma NonIntegerWeeksPass(form: LeagueForm)
    requires !IsBlank(form.name) && Truthy(form.course_id)
    ensures ValidateLeague(form.(number_of_weeks := Str("0.5"))) == None
    ensures ValidateLeague(form.(number_of_weeks := Str("16.5"))) == None
    ensures ValidateLeague(form.(number_of_weeks := Str("1e2"))) == None
  {
    StringToNumberOfNonDigit("0.5", 1);
    NaNWeeksPass(form, "0.5");
    StringToNumberOfNonDigit("16.5", 2);
    NaNWeeksPass(form, "16.5");
    StringToNumberOfNonDigit("1e2", 1);
    NaNWeeksPass(form, "1e2");
  }

  /** With a name and a course, the league passes exactly when its number of
      weeks lies in 1..15, whether the number is the form's initial number or
      one typed into the input. A cleared input reads as 0 and is refused. */
  lemma WeeksBound(form: LeagueForm, n: int)
    requires !IsBlank(form.name) && Truthy(form.course_id)
    ensures ValidateLeague(form.(number_of_weeks := Num(n))) == None <==> MinWeeks <= n <= MaxWeeks
    ensures ValidateLeague(form.(number_of_weeks := Str(IntToString(n)))) == None <==> MinWeeks <= n <= MaxWeeks
    ensures ValidateLeague(form.(number_of_weeks := Str([]))) == Some(WeeksOutOfRange)
  {
    WeeksBoundOfNumber(form, n);
    WeeksBoundOfText(form, n);
    WeeksBoundOfCleared(form);
  }

  /** `resetForm` */
  function ResetForm(st: LeaguesState): (r: LeaguesState)
    ensures r.form == InitialLeagueForm() && r.editing == st.editing && r.error == st.error
  {
    st.(form := InitialLeagueForm())
  }

  /** `handleEdit`: the league becomes the one being edited and exactly its
      five form fields are copied into the form. */
  function HandleEdit(st: LeaguesState, league: StoredLeague): (r: LeaguesState)
    ensures r.editing == Some(league) && r.error == st.error
    ensures r.form.name == league.name && r.form.course_id == league.course_id &&
      r.form.number_of_weeks == league.number_of_weeks && r.form.team_ids == league.team_ids &&
      r.form.start_date == league.start_date
  {
    st.(editing := Some(league),
        form := LeagueForm(league.name, league.course_id, league.number_of_weeks, league.team_ids, league.start_date))
  }

  /** `handleCancelEdit` */
  function HandleCancelEdit(st: LeaguesState): (r: LeaguesState)
    ensures r.editing == None && r.form == InitialLeagueForm() && r.error == st.error
  {
    ResetForm(st.(editing := None))
  }

  /** The store call `handleSubmit` makes. */
  datatype LeagueRequest = Create(league: LeagueForm) | Update(id: int, league: LeagueForm)

  /** `handleSubmit`: a refused form sets the error and calls nothing; else
      the form is sent (as an update of the edited league, or as a new
      league), the editing ends and the form is reset. */
  function HandleSubmit(st: LeaguesState): (r: (Option<LeagueRequest>, LeaguesState))
    ensures ValidateLeague(st.form).Some? ==> r == (None, st.(error := ValidateLeague(st.form)))
    ensures ValidateLeague(st.form) == None ==>
      r.1 == LeaguesState(InitialLeagueForm(), None, st.error) &&
      (st.editing.Some? ==> r.0 == Some(Update(st.editing.value.id, st.form))) &&
      (st.editing.None? ==> r.0 == Some(Create(st.form)))
    ensures r.0.Some? ==> ValidateLeague(r.0.value.league) == None
  {
    var err := ValidateLeague(st.form);
    if err.Some? then (None, st.(error := err))
    else
      var request := if st.editing.Some? then Update(st.editing.value.id, st.form) else Create(st.form);
      (Some(request), LeaguesState(InitialLeagueForm(), None, st.error))
  }

  /** Editing a stored league that passes validation and saving it at once
      sends an update of that league with its own five fields. */
  lemma EditThenSubmit(st: LeaguesState, league: StoredLeague)
    requires !IsBlank(league.name) && Truthy(league.course_id)
    requires league.number_of_weeks.Num? && MinWeeks <= league.number_of_weeks.n <= MaxWeeks
    ensures HandleSubmit(HandleEdit(st, league)).0 ==
      Some(Update(league.id, LeagueForm(league.name, league.course_id, league.number_of_weeks,
                                        league.team_ids, league.start_date)))
  {
  }
}
