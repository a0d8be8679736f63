/** The new-team form: a team name and a list of one to four players, the
    editors of that list and the checks run before the team is sent to the
    team store. */
module Teams {
  import opened Js

  datatype Player = Player(first_name: string, last_name: string)

  datatype TeamForm = TeamForm(name: string, players: seq<Player>)

  /** The two text fields of a player row. */
  datatype PlayerField = FirstName | LastName

  const MaxPlayers: nat := 4

  const NameRequired: string := "Team name is required"
  const PlayerRequired: string := "At least one player is required"
  const PlayerNamesRequired: string := "All player names are required"

  const EmptyPlayer: Player := Player([], [])

  /** The form on first display and after a team was created: no name and
      one player row with empty names. */
  function InitialTeamForm(): (f: TeamForm)
    ensures f.name == [] && |f.players| == 1 && f.players[0] == Player([], [])
  {
    TeamForm([], [EmptyPlayer])
  }

  /** `handleInputChange`: whatever input fired, the value becomes the name. */
  function SetName(form: TeamForm, value: string): (r: TeamForm)
    ensures r.name == value && r.players == form.players
  {
    form.(name := value)
  }

  /** `addPlayer`: with four players nothing happens, otherwise one empty row
      is appended. */
  function AddPlayer(form: TeamForm): (r: TeamForm)
    ensures r.name == form.name
    ensures |form.players| >= MaxPlayers ==> r == form
    ensures |form.players| < MaxPlayers ==> r.players == form.players + [EmptyPlayer]
  {
    if |form.players| >= MaxPlayers then form
    else form.(players := form.players + [EmptyPlayer])
  }

  /** `players.filter((_, i) => i !== index)` */
  function WithoutIndex(players: seq<Player>, index: int): (r: seq<Player>)
    ensures 0 <= index < |players| ==> |r| == |players| - 1
    ensures !(0 <= index < |players|) ==> r == players
    ensures forall i :: 0 <= i < |players| && i < index ==> r[i] == players[i]
    ensures forall i :: 0 <= index < i < |players| ==> r[i - 1] == players[i]
  {
    if players == [] then []
    else if index == 0 then players[1..]
    else [players[0]] + WithoutIndex(players[1..], index - 1)
  }

  /** `removePlayer`: with one player (or none) nothing happens; otherwise
      the row at `index` is removed and the others keep their order. An
      index past the end removes nothing. */
  function RemovePlayer(form: TeamForm, index: int): (r: TeamForm)
    ensures r.name == form.name
    ensures |form.players| <= 1 ==> r == form
    ensures |form.players| > 1 ==> r.players == WithoutIndex(form.players, index)
  {
    if |form.players| <= 1 then form
    else form.(players := WithoutIndex(form.players, index))
  }

  /** `handlePlayerChange`: only the named field of the row at `index`
      changes. */
  function HandlePlayerChange(form: TeamForm, index: int, field: PlayerField, value: string): (r: TeamForm)
    ensures r.name == form.name && |r.players| == |form.players|
    ensures forall i :: 0 <= i < |form.players| && i != index ==> r.players[i] == form.players[i]
    ensures 0 <= index < |form.players| ==>
      (field == FirstName ==> r.players[index] == Player(value, form.players[index].last_name)) &&
      (field == LastName ==> r.players[index] == Player(form.players[index].first_name, value))
  {
    form.(players := seq(|form.players|, i requires 0 <= i < |form.players| =>
      if i != index then form.players[i]
      else if field == FirstName then form.players[i].(first_name := value)
      else form.players[i].(last_name := value)))
  }

  /** One user action on the form. */
  datatype Edit = Add | Remove(index: int) | Change(index: int, field: PlayerField, value: string) | Rename(value: string)

  function Apply(form: TeamForm, e: Edit): TeamForm
  {
    match e
    case Add => AddPlayer(form)
    case Remove(i) => RemovePlayer(form, i)
    case Change(i, f, v) => HandlePlayerChange(form, i, f, v)
    case Rename(v) => SetName(form, v)
  }

  /** The form after a sequence of actions, first action first. */
  function ApplyAll(form: TeamForm, edits: seq<Edit>): TeamForm
    decreases |edits|
  {
    if edits == [] then form else ApplyAll(Apply(form, edits[0]), edits[1..])
  }

  /** The player list never grows past four or shrinks below one. */
  lemma ApplyKeepsPlayerBound(form: TeamForm, e: Edit)
    requires 1 <= |form.players| <= MaxPlayers
    ensures 1 <= |Apply(form, e).players| <= MaxPlayers
  {
  }

  /** Starting from one to four players, any sequence of actions keeps one to
      four players. */
  lemma {:induction false} ApplyAllKeepsPlayerBound(form: TeamForm, edits: seq<Edit>)
    requires 1 <= |form.players| <= MaxPlayers
    ensures 1 <= |ApplyAll(form, edits).players| <= MaxPlayers
    decreases |edits|
  {
    if edits != [] {
      ApplyKeepsPlayerBound(form, edits[0]);
      ApplyAllKeepsPlayerBound(Apply(form, edits[0]), edits[1..]);
    }
  }

  /** `players.some(p => !p.first_name.trim() || !p.last_name.trim())` */
  predicate SomeNameBlank(players: seq<Player>)
  {
    exists i :: 0 <= i < |players| && (IsBlank(players[i].first_name) || IsBlank(players[i].last_name))
  }

  /** `validateTeam`: the first failing check names the error; `None` means
      the team may be sent. */
  function ValidateTeam(form: TeamForm): (r: Option<string>)
    ensures r == None <==>
      !IsBlank(form.name) && |form.players| >= 1 &&
      forall i :: 0 <= i < |form.players| ==>
        !IsBlank(form.players[i].first_name) && !IsBlank(form.players[i].last_name)
    ensures IsBlank(form.name) ==> r == Some(NameRequired)
    ensures !IsBlank(form.name) && form.players == [] ==> r == Some(PlayerRequired)
    ensures !IsBlank(form.name) && form.players != [] && r != None ==> r == Some(PlayerNamesRequired)
  {
    if IsBlank(form.name) then Some(NameRequired)
    else if |form.players| < 1 then Some(PlayerRequired)
    else if SomeNameBlank(form.players) then Some(PlayerNamesRequired)
    else None
  }

  /** The untouched form is refused for its missing name. */
  lemma InitialFormRefused()
    ensures ValidateTeam(InitialTeamForm()) == Some(NameRequired)
  {
    assert IsBlank([]);
  }

  /** `handleSubmit`: a form that fails validation keeps its error and sends
      nothing; a valid one is sent as it is and the form starts over. The
      success path never clears the error, so a message left by an earlier
      refusal stays on the page. */
  datatype SubmitResult = SubmitResult(sent: Option<TeamForm>, form: TeamForm, error: Option<string>)

  function SubmitTeam(form: TeamForm, error: Option<string>): (r: SubmitResult)
    ensures ValidateTeam(form) != None ==> r == SubmitResult(None, form, ValidateTeam(form))
    ensures ValidateTeam(form) == None ==>
      r.sent == Some(form) && r.form == InitialTeamForm() && r.error == error
    ensures r.sent.Some? ==> ValidateTeam(r.sent.value) == None
  {
    var err := ValidateTeam(form);
    if err.Some? then SubmitResult(None, form, err)
    else SubmitResult(Some(form), InitialTeamForm(), error)
  }

  /** A refusal followed by a valid submission sends the team and still
      shows the first refusal's message. */
  lemma RefusalMessageSurvivesSubmit(refused: TeamForm, form: TeamForm)
    requires ValidateTeam(refused) != None && ValidateTeam(form) == None
    ensures var first := SubmitTeam(refused, None);
      var second := SubmitTeam(form, first.error);
      second.sent == Some(form) && second.error == ValidateTeam(refused) && second.error != None
  {
  }
}
