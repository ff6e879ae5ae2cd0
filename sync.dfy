/** The synchronisation store: whole-collection replacement on POST and the
    derived views served on GET. */
module Sync {
  import opened Wrappers
  import Text
  import Seqs

  /** A `syncedAt` value: JSON `null` or a number of milliseconds. */
  datatype Stamp = Null | At(ms: int)

  /** A synchronised collection: its content (a list of records or a map of
      files) and when it was synced. */
  datatype Synced<C> = Synced(content: C, syncedAt: Stamp)

  /** A task record: the fields the views read (absent or `null` is `None`;
      times are epoch seconds) and every other field, kept opaque. */
  datatype Task = Task(
    completedAt: Option<int>,
    dismissedAt: Option<int>,
    startAt: Option<int>,
    hideUntil: Option<int>,
    score: Option<int>,
    rest: map<string, string>)

  /** A note record: its `type` discriminator and every other field. */
  datatype Note = Note(kind: Option<string>, rest: map<string, string>)

  /** The Python truth value of an optional number: present and non-zero. */
  predicate Truthy(v: Option<int>) {
    v.Some? && v.value != 0
  }

  // ---------------------------------------------------------------------------
  // Writes
  // ---------------------------------------------------------------------------

  /** POST of a collection: the payload's content (the empty collection when
      the key is absent) and the payload's `syncedAt`, or `now * 1000` only
      when that key is absent. The previous state plays no part. */
  function Replace<C>(content: Option<C>, empty: C, syncedAt: Option<Stamp>, now: int): (r: Synced<C>)
    ensures content.Some? ==> r.content == content.value
    ensures content.None? ==> r.content == empty
    ensures syncedAt.Some? ==> r.syncedAt == syncedAt.value
    ensures syncedAt.None? ==> r.syncedAt == At(now * 1000)
  {
    Synced(content.GetOr(empty), syncedAt.GetOr(At(now * 1000)))
  }

  /** Two identical POSTs that carry `syncedAt` leave the same state, at
      whatever times they arrive. */
  lemma ReplaceIdempotent<C>(content: Option<C>, empty: C, syncedAt: Option<Stamp>, now1: int, now2: int)
    requires syncedAt.Some?
    ensures Replace(content, empty, syncedAt, now1) == Replace(content, empty, syncedAt, now2)
  {
  }

  /** The suffix a context file name must carry to be updated on its own. */
  const MarkdownSuffix: string := ".md"

  /** POST of one context file: exactly that key gets the new text, every
      other file is kept as it was, and `syncedAt` becomes `now * 1000`. */
  function UpdateFile(ctx: Synced<map<string, string>>, name: string, text: string, now: int)
    : (r: Synced<map<string, string>>)
    ensures r.content.Keys == ctx.content.Keys + {name}
    ensures r.content[name] == text
    ensures forall f :: f in ctx.content && f != name ==> r.content[f] == ctx.content[f]
    ensures r.syncedAt == At(now * 1000)
  {
    Synced(ctx.content[name := text], At(now * 1000))
  }

  // ---------------------------------------------------------------------------
  // Views
  // ---------------------------------------------------------------------------

  /** Neither completed nor dismissed. */
  predicate IsOpen(t: Task) {
    !Truthy(t.completedAt) && !Truthy(t.dismissedAt)
  }

  /** Neither scheduled for later nor hidden until later. */
  predicate IsDue(t: Task, now: int) {
    && (!Truthy(t.startAt) || t.startAt.value <= now)
    && (!Truthy(t.hideUntil) || t.hideUntil.value <= now)
  }

  /** The `/tasks/today` condition, as the source writes it: open and due. */
  predicate IsToday(t: Task, now: int) {
    IsOpen(t) && IsDue(t, now)
  }

  /** `t.get("score", 0)`. */
  function Score(t: Task): int {
    t.score.GetOr(0)
  }

  /** The order of `sort(key=score, reverse=True)`: a higher score first. */
  predicate HigherScore(a: int, b: int) {
    a > b
  }

  /** `/tasks/open`: the open tasks, in stored order. */
  function OpenTasks(tasks: seq<Task>): (r: seq<Task>)
    ensures forall t :: t in r ==> IsOpen(t)
    ensures forall t {:trigger multiset(r)[t]} :: multiset(r)[t] == if IsOpen(t) then multiset(tasks)[t] else 0
  {
    Seqs.Filter(tasks, IsOpen)
  }

  /** `/tasks/today`: the open, due tasks, stably sorted by descending score. */
  function TodayTasks(tasks: seq<Task>, now: int): seq<Task> {
    Seqs.SortBy(Seqs.Filter(tasks, t => IsToday(t, now)), Score, HigherScore)
  }

  /** `/notes/werkbank` and `/notes/projects`: the notes of one type, in
      stored order. */
  function NotesOfType(notes: seq<Note>, kind: string): (r: seq<Note>)
    ensures forall n :: n in r ==> n.kind == Some(kind)
    ensures forall n {:trigger multiset(r)[n]} :: multiset(r)[n] == if n.kind == Some(kind) then multiset(notes)[n] else 0
  {
    Seqs.Filter(notes, (n: Note) => n.kind == Some(kind))
  }

  const WerkbankType: string := "werkbank"
  const ProjectType: string := "project"

  lemma HigherScoreOrder()
    ensures Seqs.StrictTotalOrder(HigherScore)
  {
  }

  /** The open view keeps the stored order: filtering a concatenation is the
      concatenation of the filtered parts. */
  lemma OpenTasksConcat(a: seq<Task>, b: seq<Task>)
    ensures OpenTasks(a + b) == OpenTasks(a) + OpenTasks(b)
  {
    Seqs.FilterConcat(a, b, IsOpen);
  }

  /** The today view is a permutation of the due tasks of the open view,
      sorted by descending score, with equal scores in stored order. */
  lemma TodayTasksSpec(tasks: seq<Task>, now: int)
    ensures var due := Seqs.Filter(OpenTasks(tasks), t => IsDue(t, now));
            var r := TodayTasks(tasks, now);
            && multiset(r) == multiset(due)
            && (forall i, j :: 0 <= i < j < |r| ==> Score(r[i]) >= Score(r[j]))
            && (forall k :: Seqs.WithKey(r, Score, k) == Seqs.WithKey(due, Score, k))
  {
    var today := Seqs.Filter(tasks, t => IsToday(t, now));
    var due := Seqs.Filter(OpenTasks(tasks), t => IsDue(t, now));
    Seqs.FilterFilter(tasks, IsOpen, t => IsDue(t, now), t => IsToday(t, now));
    assert due == today;
    HigherScoreOrder();
    Seqs.SortByStablySorted(today, Score, HigherScore);
  }

  /** Tasks that are all open and due and already in descending score order
      come back from `/tasks/today` exactly as stored. */
  lemma TodayKeepsSortedDue(tasks: seq<Task>, now: int)
    requires forall t :: t in tasks ==> IsToday(t, now)
    requires forall i, j :: 0 <= i < j < |tasks| ==> Score(tasks[i]) >= Score(tasks[j])
    ensures TodayTasks(tasks, now) == tasks
  {
    Seqs.FilterAll(tasks, t => IsToday(t, now));
    HigherScoreOrder();
    Seqs.StableSortUnique(tasks, tasks, Score, HigherScore);
  }

  /** The example of a sync followed by `/tasks/today`: scores 5, 5 and 1
      come back in the order sent. */
  lemma TodayExample(now: int)
    ensures var t1 := Task(None, None, None, None, Some(5), map["id" := "1"]);
            var t2 := Task(None, None, None, None, Some(5), map["id" := "2"]);
            var t3 := Task(None, None, None, None, Some(1), map["id" := "3"]);
            TodayTasks([t1, t2, t3], now) == [t1, t2, t3]
  {
    var t1 := Task(None, None, None, None, Some(5), map["id" := "1"]);
    var t2 := Task(None, None, None, None, Some(5), map["id" := "2"]);
    var t3 := Task(None, None, None, None, Some(1), map["id" := "3"]);
    TodayKeepsSortedDue([t1, t2, t3], now);
  }
}
