/** The dashboard: the greeting and subtitle chosen by the hour, the status counters, the
    recent-task and team panels, and the admin redirect. */
module DashboardPage {
  import opened Options
  import opened Dto
  import Seqs

  const AdminHome: string := "/admin/users"
  const RecentTaskCount: nat := 5
  const TeamPanelCount: nat := 6

  /** The four parts of the day the page distinguishes. */
  datatype Band = Morning | Afternoon | Evening | Night

  /** The clock hour's band: [5, 12), [12, 17), [17, 21), and every other hour. */
  function BandOf(hour: int): (b: Band)
    ensures b == Morning <==> 5 <= hour < 12
    ensures b == Afternoon <==> 12 <= hour < 17
    ensures b == Evening <==> 17 <= hour < 21
    ensures b == Night <==> hour < 5 || 21 <= hour
  {
    if 5 <= hour < 12 then Morning
    else if 12 <= hour < 17 then Afternoon
    else if 17 <= hour < 21 then Evening
    else Night
  }

  function GreetingText(b: Band): string
  {
    match b
    case Morning => "Good morning"
    case Afternoon => "Good afternoon"
    case Evening => "Good evening"
    case Night => "Burning the midnight oil"
  }

  function SubtitleText(b: Band): string
  {
    match b
    case Morning => "Michael's not in yet for the day. He burnt his foot in the BBQ."
    case Afternoon => "Michael just ate an entire chicken pot pie for lunch. He's asleep in his office. You can leave."
    case Evening => "Word is you've got dinner plans at Michael and Jan's tonight. Surely nothing awkward will happen, right?"
    case Night => "Hey, how was that dinner at Michael and Jan's earlier tonight?"
  }

  /** `getGreeting` for the clock's hour. */
  function Greeting(hour: int): string
  {
    GreetingText(BandOf(hour))
  }

  /** `getSubtitle` for the clock's hour. */
  function Subtitle(hour: int): string
  {
    SubtitleText(BandOf(hour))
  }

  /** Each band has its own greeting: two hours get the same greeting iff they are in the same band. */
  lemma GreetingSeparatesBands(h1: int, h2: int)
    ensures Greeting(h1) == Greeting(h2) <==> BandOf(h1) == BandOf(h2)
  {
    var g1, g2 := GreetingText(BandOf(h1)), GreetingText(BandOf(h2));
    if BandOf(h1) != BandOf(h2) {
      assert g1[..6] != g2[..6] || g1[5] != g2[5];
    }
  }

  /** The four subtitles differ in length; one lemma per text keeps each proof small. */
  lemma MorningSubtitleLength() ensures |SubtitleText(Morning)| == 63 { }
  lemma AfternoonSubtitleLength() ensures |SubtitleText(Afternoon)| == 95 { }
  lemma EveningSubtitleLength() ensures |SubtitleText(Evening)| == 104 { }
  lemma NightSubtitleLength() ensures |SubtitleText(Night)| == 62 { }

  /** The length of each band's subtitle; no two are equal. */
  function SubtitleLength(b: Band): nat
  {
    match b
    case Morning => 63
    case Afternoon => 95
    case Evening => 104
    case Night => 62
  }

  lemma SubtitleHasLength(b: Band)
    ensures |SubtitleText(b)| == SubtitleLength(b)
  {
    match b
    case Morning => MorningSubtitleLength();
    case Afternoon => AfternoonSubtitleLength();
    case Evening => EveningSubtitleLength();
    case Night => NightSubtitleLength();
  }

  lemma SubtitleLengthInjective(b1: Band, b2: Band)
    ensures SubtitleLength(b1) == SubtitleLength(b2) ==> b1 == b2
  {
  }

  /** No two bands share a subtitle text. */
  lemma SubtitleTextInjective(b1: Band, b2: Band)
    ensures SubtitleText(b1) == SubtitleText(b2) ==> b1 == b2
  {
    SubtitleHasLength(b1);
    SubtitleHasLength(b2);
    SubtitleLengthInjective(b1, b2);
  }

  /** Each band has its own subtitle: two hours get the same subtitle iff they are in the same band. */
  lemma SubtitleSeparatesBands(h1: int, h2: int)
    ensures Subtitle(h1) == Subtitle(h2) <==> BandOf(h1) == BandOf(h2)
  {
    SubtitleTextInjective(BandOf(h1), BandOf(h2));
  }

  /** The greeting and the subtitle change at the same hours. */
  lemma GreetingAndSubtitleShareBands(h1: int, h2: int)
    ensures Greeting(h1) == Greeting(h2) <==> Subtitle(h1) == Subtitle(h2)
  {
    GreetingSeparatesBands(h1, h2);
    SubtitleSeparatesBands(h1, h2);
  }

  function HasStatus(status: string): TaskDto -> bool
  {
    (t: TaskDto) => t.status == status
  }

  /** `tasks.filter(t => t.status === status).length`. */
  function StatusCount(tasks: seq<TaskDto>, status: string): nat
  {
    Seqs.Count(tasks, HasStatus(status))
  }

  predicate KnownStatus(t: TaskDto)
  {
    t.status == "TODO" || t.status == "IN_PROGRESS" || t.status == "DONE"
  }

  function Counted(tasks: seq<TaskDto>): nat
  {
    StatusCount(tasks, "TODO") + StatusCount(tasks, "IN_PROGRESS") + StatusCount(tasks, "DONE")
  }

  /** The three counters never add up to more than the tasks shown, and add up to exactly that
      many iff every task has one of the three statuses. */
  lemma {:induction false} CountersCoverTasks(tasks: seq<TaskDto>)
    ensures Counted(tasks) <= |tasks|
    ensures Counted(tasks) == |tasks| <==> (forall i :: 0 <= i < |tasks| ==> KnownStatus(tasks[i]))
    decreases |tasks|
  {
    if tasks != [] {
      var rest := tasks[1..];
      CountersCoverTasks(rest);
      assert "TODO" != "IN_PROGRESS" && "TODO" != "DONE" && "IN_PROGRESS" != "DONE" by {
        assert "TODO"[0] != "IN_PROGRESS"[0] && "TODO"[0] != "DONE"[0] && "IN_PROGRESS"[0] != "DONE"[0];
      }
      assert Counted(tasks) == Counted(rest) + (if KnownStatus(tasks[0]) then 1 else 0);
      assert forall i :: 1 <= i < |tasks| ==> tasks[i] == rest[i - 1];
      if forall i :: 0 <= i < |rest| ==> KnownStatus(rest[i]) {
        assert KnownStatus(tasks[0]) ==> forall i :: 0 <= i < |tasks| ==> KnownStatus(tasks[i]) by {
          forall i | 0 <= i < |tasks| ensures KnownStatus(tasks[0]) ==> KnownStatus(tasks[i]) {
            if i > 0 { assert tasks[i] == rest[i - 1]; }
          }
        }
      }
    }
  }

  const NoTasksText: string := "No active tasks assigned to you."
  const NoTeamsText: string := "You're not in any teams yet."

  /** A list panel: one card per shown item, or the placeholder text. */
  datatype Panel<T> = Placeholder(text: string) | Cards(items: seq<T>)

  /** `list.length > 0 ? list.slice(0, n).map(...) : placeholder`: the first `n` items in
      list order, or the placeholder for an empty list. */
  function PanelOf<T>(list: seq<T>, n: nat, placeholder: string): (p: Panel<T>)
    ensures p.Placeholder? <==> list == []
    ensures p.Placeholder? ==> p.text == placeholder
    ensures p.Cards? ==> |p.items| == (if |list| < n then |list| else n)
    ensures p.Cards? ==> forall i :: 0 <= i < |p.items| ==> p.items[i] == list[i]
    ensures p.Cards? ==> multiset(p.items) <= multiset(list)
    ensures p.Cards? && |list| <= n ==> p.items == list
  {
    if |list| > 0 then
      Seqs.TakeAndRest(list, n);
      Cards(Seqs.Take(list, n))
    else Placeholder(placeholder)
  }

  /** What mounting the page does: an admin is sent to the user list and nothing is loaded. */
  datatype Mount = RedirectTo(path: string) | LoadData

  function OnMount(isAdmin: bool): (m: Mount)
    ensures m.RedirectTo? <==> isAdmin
    ensures m.RedirectTo? ==> m.path == AdminHome
  {
    if isAdmin then RedirectTo(AdminHome) else LoadData
  }

  /** The loaded lists and the loading flag. */
  class DashboardView {
    var tasks: seq<TaskDto>
    var teams: seq<TeamDto>
    var loading: bool

    constructor ()
      ensures tasks == [] && teams == [] && loading
    {
      tasks, teams, loading := [], [], true;
    }

    /** The recent-tasks column: the first five loaded tasks, or the placeholder. */
    function RecentTasks(): (p: Panel<TaskDto>)
      reads this
      ensures p.Placeholder? <==> tasks == []
      ensures p.Placeholder? ==> p.text == NoTasksText
      ensures p.Cards? ==> |p.items| == (if |tasks| < RecentTaskCount then |tasks| else RecentTaskCount)
      ensures p.Cards? ==> forall i :: 0 <= i < |p.items| ==> p.items[i] == tasks[i]
    {
      PanelOf(tasks, RecentTaskCount, NoTasksText)
    }

    /** The teams column: the first six loaded teams, or the placeholder. */
    function TeamCards(): (p: Panel<TeamDto>)
      reads this
      ensures p.Placeholder? <==> teams == []
      ensures p.Placeholder? ==> p.text == NoTeamsText
      ensures p.Cards? ==> |p.items| == (if |teams| < TeamPanelCount then |teams| else TeamPanelCount)
      ensures p.Cards? ==> forall i :: 0 <= i < |p.items| ==> p.items[i] == teams[i]
    {
      PanelOf(teams, TeamPanelCount, NoTeamsText)
    }

    /** The two effects run on mount: the redirect, and `loadData` for everyone else. Both
        requests must succeed for either list to be replaced. */
    method Mounted(isAdmin: bool, tasksRes: Response<seq<TaskDto>>, teamsRes: Response<seq<TeamDto>>)
      returns (navigateTo: Option<string>)
      modifies this
      ensures navigateTo.Some? <==> OnMount(isAdmin).RedirectTo?
      ensures navigateTo.Some? ==> navigateTo.value == AdminHome
      ensures isAdmin ==> tasks == old(tasks) && teams == old(teams) && loading == old(loading)
      ensures !isAdmin && tasksRes.Received? && teamsRes.Received? ==>
        tasks == tasksRes.value && teams == teamsRes.value && !loading
      ensures !isAdmin && tasksRes.Received? && teamsRes.Received? ==>
        (RecentTasks().Cards? <==> tasksRes.value != []) && (TeamCards().Cards? <==> teamsRes.value != [])
      ensures !isAdmin && !(tasksRes.Received? && teamsRes.Received?) ==>
        tasks == old(tasks) && teams == old(teams) && !loading
    {
      match OnMount(isAdmin)
      case RedirectTo(path) =>
        navigateTo := Some(path);
      case LoadData =>
        navigateTo := None;
        if tasksRes.Received? && teamsRes.Received? {
          tasks := tasksRes.value;
          teams := teamsRes.value;
        }
        loading := false;
    }
  }
}
