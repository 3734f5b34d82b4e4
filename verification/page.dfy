/** The task page as an event-driven state machine. Each user action and
    each reply from the task API is an input event; a step yields the next
    page state and the API requests it issues. */
module Page {
  import opened Wrappers
  import opened Tasks
  import opened View

  /** The errors the page can show, one per failing request kind. */
  datatype PageError = LoadFailed | SaveFailed | RecurringSaveFailed | DeleteFailed | StatusUpdateFailed

  /** The message shown for each error. */
  function Message(e: PageError): (m: string)
    ensures m != ""
  {
    match e
    case LoadFailed => "Falha ao carregar tarefas."
    case SaveFailed => "Erro ao salvar a tarefa."
    case RecurringSaveFailed => "Erro ao salvar as tarefas recorrentes."
    case DeleteFailed => "Erro ao excluir a tarefa."
    case StatusUpdateFailed => "Erro ao atualizar status."
  }

  /** The page's state (the theme is left out). */
  datatype PageState = PageState(
    tarefas: seq<Task>,
    error: Option<PageError>,
    isLoading: bool,
    selectedDate: Option<Date>,
    modalOpen: bool,
    tarefaAtual: Option<Task>)

  /** The state before the first render's effect runs. */
  const Initial: PageState := PageState([], None, true, None, false, None)

  /** A request to the task API. */
  datatype Call =
    | GetAll
    | Create(body: TaskPayload)
    | Update(id: Option<int>, body: TaskPayload)
    | Delete(id: Option<int>)
    | CreateRecurring(data: RecurringPayload)

  /** A reply to a list request: the tasks, or a failure. */
  datatype Reply<T> = Delivered(value: T) | Failed

  /** Inputs of the page: user actions (the answer of the delete
      confirmation dialog included) and API replies. */
  datatype Event =
    | Mounted
    | LoadReplied(reply: Reply<seq<Task>>)
    | SaveRequested(payload: TaskPayload)
    | SaveReplied(ok: bool)
    | RecurringSaveRequested(data: RecurringPayload)
    | RecurringSaveReplied(ok: bool)
    | DeleteRequested(id: Option<int>, confirmed: bool)
    | DeleteReplied(ok: bool)
    | ToggleRequested(clicked: Task)
    | ToggleReplied(ok: bool)
    | DateSelected(date: Date)
    | DateCleared
    | ModalOpened(toEdit: Option<Task>)
    | ModalClosed

  /** The next state and the requests issued on the way there. */
  datatype Transition = Transition(next: PageState, calls: seq<Call>)

  /** `fetchTarefas`: mark loading and ask for the list. */
  function Fetch(s: PageState): (t: Transition)
    ensures t.calls == [GetAll] && t.next.isLoading
    ensures t.next.tarefas == s.tarefas && t.next.error == s.error
    ensures t.next.selectedDate == s.selectedDate && t.next.tarefaAtual == s.tarefaAtual
    ensures t.next.modalOpen == s.modalOpen
  {
    Transition(s.(isLoading := true), [GetAll])
  }

  /** The list reply: a delivered list replaces the tasks, a failure keeps
      them and records the load error; loading ends either way. */
  function OnLoadReply(s: PageState, reply: Reply<seq<Task>>): (t: Transition)
    ensures t.calls == [] && !t.next.isLoading
    ensures reply.Delivered? ==> t.next.tarefas == reply.value && t.next.error == s.error
    ensures reply.Failed? ==> t.next.tarefas == s.tarefas && t.next.error == Some(LoadFailed)
    ensures t.next.selectedDate == s.selectedDate && t.next.tarefaAtual == s.tarefaAtual
    ensures t.next.modalOpen == s.modalOpen
  {
    match reply
    case Delivered(list) => Transition(s.(tarefas := list, isLoading := false), [])
    case Failed => Transition(s.(error := Some(LoadFailed), isLoading := false), [])
  }

  /** `handleSaveTarefa`: an update when the payload's id is truthy, a
      create otherwise; nothing changes until the reply. */
  function Save(s: PageState, p: TaskPayload): (t: Transition)
    ensures t.next == s && |t.calls| == 1
    ensures t.calls[0].Update? <==> IdTruthy(p.id)
    ensures t.calls[0].Update? ==> t.calls[0] == Update(p.id, p)
    ensures !t.calls[0].Update? ==> t.calls[0] == Create(p)
  {
    Transition(s, [if IdTruthy(p.id) then Update(p.id, p) else Create(p)])
  }

  /** The reply to a save (single or recurring): success reloads and closes
      the modal, failure records `err` and changes nothing else. */
  function OnSaveReply(s: PageState, ok: bool, err: PageError): (t: Transition)
    ensures ok ==> t.calls == [GetAll] && t.next.isLoading && !t.next.modalOpen
    ensures ok ==> t.next.error == s.error
    ensures !ok ==> t.calls == [] && t.next == s.(error := Some(err))
    ensures t.next.tarefas == s.tarefas
    ensures t.next.selectedDate == s.selectedDate && t.next.tarefaAtual == s.tarefaAtual
  {
    if ok then
      var f := Fetch(s);
      Transition(f.next.(modalOpen := false), f.calls)
    else
      Transition(s.(error := Some(err)), [])
  }

  /** `handleDeleteTarefa`: a delete request only when confirmed. */
  function RequestDelete(s: PageState, id: Option<int>, confirmed: bool): (t: Transition)
    ensures t.next == s
    ensures t.calls == if confirmed then [Delete(id)] else []
  {
    if confirmed then Transition(s, [Delete(id)]) else Transition(s, [])
  }

  /** The reply to a delete: success reloads, failure records the error. */
  function OnDeleteReply(s: PageState, ok: bool): (t: Transition)
    ensures ok ==> t.calls == [GetAll] && t.next.isLoading
    ensures ok ==> t.next.error == s.error
    ensures !ok ==> t.calls == [] && t.next == s.(error := Some(DeleteFailed))
    ensures t.next.tarefas == s.tarefas
    ensures t.next.selectedDate == s.selectedDate && t.next.tarefaAtual == s.tarefaAtual
    ensures t.next.modalOpen == s.modalOpen
  {
    if ok then Fetch(s) else Transition(s.(error := Some(DeleteFailed)), [])
  }

  /** The task a toggle writes: the clicked task with its status flipped. */
  function Toggled(tarefa: Task): Task {
    tarefa.(status := FlipStatus(tarefa.status))
  }

  /** The optimistic part of `handleToggleStatus`: every task whose id
      equals the clicked task's id (`===`) is replaced by the toggled task. */
  function ApplyToggle(ts: seq<Task>, tarefa: Task): (r: seq<Task>)
    ensures |r| == |ts|
    ensures forall i :: 0 <= i < |r| ==> r[i].id == ts[i].id
    ensures forall i :: 0 <= i < |r| && ts[i].id != tarefa.id ==> r[i] == ts[i]
    ensures forall i :: 0 <= i < |r| && ts[i].id == tarefa.id ==> r[i] == Toggled(tarefa)
  {
    seq(|ts|, i requires 0 <= i < |ts| => if ts[i].id == tarefa.id then Toggled(tarefa) else ts[i])
  }

  /** `handleToggleStatus`: apply the toggle locally at once and send the
      toggled task as an update. */
  function ToggleStatus(s: PageState, tarefa: Task): (t: Transition)
    ensures t.next == s.(tarefas := ApplyToggle(s.tarefas, tarefa))
    ensures t.calls == [Update(tarefa.id, ToPayload(Toggled(tarefa)))]
  {
    Transition(s.(tarefas := ApplyToggle(s.tarefas, tarefa)), [Update(tarefa.id, ToPayload(Toggled(tarefa)))])
  }

  /** The reply to a status update: success does nothing, failure records
      the error and reloads to discard the optimistic change. */
  function OnToggleReply(s: PageState, ok: bool): (t: Transition)
    ensures ok ==> t == Transition(s, [])
    ensures !ok ==> t.calls == [GetAll] && t.next.error == Some(StatusUpdateFailed) && t.next.isLoading
    ensures t.next.tarefas == s.tarefas
    ensures t.next.selectedDate == s.selectedDate && t.next.tarefaAtual == s.tarefaAtual
    ensures t.next.modalOpen == s.modalOpen
  {
    if ok then Transition(s, []) else Fetch(s.(error := Some(StatusUpdateFailed)))
  }

  /** `handleSaveRecurringTarefa`: one create-recurring request for the
      whole payload; nothing changes until the reply. */
  function SaveRecurring(s: PageState, data: RecurringPayload): (t: Transition)
    ensures t.next == s
    ensures t.calls == [CreateRecurring(data)]
  {
    Transition(s, [CreateRecurring(data)])
  }

  /** `handleDateChange`: select a day; nothing else changes. */
  function SelectDate(s: PageState, date: Date): (t: Transition)
    ensures t.calls == [] && t.next.selectedDate == Some(date)
    ensures t.next.(selectedDate := s.selectedDate) == s
  {
    Transition(s.(selectedDate := Some(date)), [])
  }

  /** `clearDateFilter`: drop the selected day; nothing else changes. */
  function ClearDate(s: PageState): (t: Transition)
    ensures t.calls == [] && t.next.selectedDate.None?
    ensures t.next.(selectedDate := s.selectedDate) == s
  {
    Transition(s.(selectedDate := None), [])
  }

  /** `handleOpenModal`: remember the task to edit (`None` for a new one)
      and open the modal. */
  function OpenModal(s: PageState, toEdit: Option<Task>): (t: Transition)
    ensures t.calls == [] && t.next.modalOpen && t.next.tarefaAtual == toEdit
    ensures t.next.(modalOpen := s.modalOpen, tarefaAtual := s.tarefaAtual) == s
  {
    Transition(s.(tarefaAtual := toEdit, modalOpen := true), [])
  }

  /** `handleCloseModal`: close the modal; the task to edit is kept. */
  function CloseModal(s: PageState): (t: Transition)
    ensures t.calls == [] && !t.next.modalOpen
    ensures t.next.(modalOpen := s.modalOpen) == s
  {
    Transition(s.(modalOpen := false), [])
  }

  /** One event. */
  function Step(s: PageState, e: Event): Transition {
    match e
    case Mounted => Fetch(s)
    case LoadReplied(reply) => OnLoadReply(s, reply)
    case SaveRequested(p) => Save(s, p)
    case SaveReplied(ok) => OnSaveReply(s, ok, SaveFailed)
    case RecurringSaveRequested(data) => SaveRecurring(s, data)
    case RecurringSaveReplied(ok) => OnSaveReply(s, ok, RecurringSaveFailed)
    case DeleteRequested(id, confirmed) => RequestDelete(s, id, confirmed)
    case DeleteReplied(ok) => OnDeleteReply(s, ok)
    case ToggleRequested(tarefa) => ToggleStatus(s, tarefa)
    case ToggleReplied(ok) => OnToggleReply(s, ok)
    case DateSelected(date) => SelectDate(s, date)
    case DateCleared => ClearDate(s)
    case ModalOpened(toEdit) => OpenModal(s, toEdit)
    case ModalClosed => CloseModal(s)
  }

  /** The error line the page renders (`{error && <p>{error}</p>}`). */
  function ErrorLine(s: PageState): (line: Option<string>)
    ensures line.Some? <==> s.error.Some?
    ensures line.Some? ==> line.value != ""
  {
    if s.error.Some? then Some(Message(s.error.value)) else None
  }

  /** Different errors show different messages. */
  lemma MessagesDistinct(a: PageError, b: PageError)
    ensures Message(a) == Message(b) <==> a == b
  {
  }

  /** A run of events from `s`: the final state and every request issued,
      in order. */
  function Run(s: PageState, es: seq<Event>): Transition
    decreases |es|
  {
    if es == [] then Transition(s, [])
    else
      var first := Step(s, es[0]);
      var rest := Run(first.next, es[1..]);
      Transition(rest.next, first.calls + rest.calls)
  }

  /** `filteredTarefas` for the current state. */
  function Visible(s: PageState): seq<Task> {
    Projection(s.tarefas, s.selectedDate)
  }

  /** The list the page renders: only when not loading and no error is set,
      and then every task, or with a day selected exactly the tasks starting
      on it (with multiplicity). */
  function Shown(s: PageState): (r: Option<seq<Task>>)
    ensures r.Some? <==> !s.isLoading && s.error.None?
    ensures r.Some? && s.selectedDate.None? ==> multiset(r.value) == multiset(s.tarefas)
    ensures r.Some? && s.selectedDate.Some? ==>
      forall t :: multiset(r.value)[t] == if OnDay(t, s.selectedDate.value) then multiset(s.tarefas)[t] else 0
    ensures r.Some? ==> Ordered(r.value)
  {
    ProjectionContents(s.tarefas, s.selectedDate);
    if !s.isLoading && s.error.None? then Some(Visible(s)) else None
  }

  /** Only a delivered list and a toggle change the tasks: saves, deletes
      and failed requests leave them alone until a reload replaces them. */
  lemma OnlyLoadAndToggleChangeTasks(s: PageState, e: Event)
    ensures Step(s, e).next.tarefas != s.tarefas ==>
      (e.LoadReplied? && e.reply.Delivered?) || e.ToggleRequested?
  {
  }

  /** Selecting a day narrows the derived list to the tasks starting on
      it, without touching the tasks. */
  lemma SelectDateNarrows(s: PageState, date: Date)
    ensures Step(s, DateSelected(date)).next.tarefas == s.tarefas
    ensures forall t :: t in Visible(Step(s, DateSelected(date)).next) <==> t in s.tarefas && OnDay(t, date)
  {
    var d := Step(s, DateSelected(date)).next;
    assert d == s.(selectedDate := Some(date));
    var sorted := SortTarefas(s.tarefas);
    SameMembers(sorted, s.tarefas);
    var v := FilterByDay(sorted, Some(date));
    assert Visible(d) == v;
    forall t ensures t in v <==> t in s.tarefas && OnDay(t, date) {
      assert t in v <==> t in sorted && OnDay(t, date);
    }
  }

  /** Clearing the day after selecting one restores the page and lists
      every task again. */
  lemma ClearDateRestores(s: PageState, date: Date)
    ensures var c := Step(Step(s, DateSelected(date)).next, DateCleared).next;
      c == s.(selectedDate := None) && multiset(Visible(c)) == multiset(s.tarefas)
  {
    var d := Step(s, DateSelected(date)).next;
    assert d == s.(selectedDate := Some(date));
    var c := Step(d, DateCleared).next;
    assert c == s.(selectedDate := None);
    assert Visible(c) == Projection(s.tarefas, None);
    ProjectionContents(s.tarefas, None);
  }

  /** A modal opened for a task and closed again leaves the page as it was,
      apart from the remembered task. */
  lemma ModalOpenClose(s: PageState, toEdit: Option<Task>)
    ensures Run(s, [ModalOpened(toEdit), ModalClosed]) ==
      Transition(s.(tarefaAtual := toEdit, modalOpen := false), [])
  {
    var es := [ModalOpened(toEdit), ModalClosed];
    var s1 := Step(s, es[0]).next;
    assert es[1..] == [ModalClosed];
    assert es[1..][1..] == [];
    assert Run(s1, es[1..]) == Transition(Step(s1, ModalClosed).next, []);
  }

  /** The first render fetches the list, and once it arrives the page shows
      every task delivered. */
  lemma MountThenLoadShowsAll(ts: seq<Task>)
    ensures var r := Run(Initial, [Mounted, LoadReplied(Delivered(ts))]);
      && r.calls == [GetAll]
      && r.next.tarefas == ts
      && Shown(r.next).Some?
      && multiset(Shown(r.next).value) == multiset(ts)
  {
    var es := [Mounted, LoadReplied(Delivered(ts))];
    var s1 := Step(Initial, es[0]).next;
    assert es[1..] == [LoadReplied(Delivered(ts))];
    assert es[1..][1..] == [];
    var s2 := OnLoadReply(s1, Delivered(ts)).next;
    assert Run(s1, es[1..]) == Transition(s2, []);
    assert Run(Initial, es) == Transition(s2, [GetAll]);
  }

  /** No event clears an error: once set, the page never shows its list again. */
  lemma ErrorIsSticky(s: PageState, es: seq<Event>)
    requires s.error.Some?
    ensures Run(s, es).next.error.Some?
    ensures Shown(Run(s, es).next).None?
    decreases |es|
  {
    if es != [] {
      ErrorIsSticky(Step(s, es[0]).next, es[1..]);
    }
  }

  /** Every list request marks the page as loading. */
  lemma ReloadMarksLoading(s: PageState, e: Event)
    ensures GetAll in Step(s, e).calls ==> Step(s, e).next.isLoading
  {
  }

  /** A save request is an update exactly when its id is truthy; neither
      request changes the page until its reply arrives. */
  lemma SaveDispatch(s: PageState, p: TaskPayload)
    ensures Step(s, SaveRequested(p)).next == s
    ensures Step(s, SaveRequested(p)).calls == [Update(p.id, p)] <==> IdTruthy(p.id)
    ensures Step(s, SaveRequested(p)).calls == [Create(p)] <==> !IdTruthy(p.id)
  {
  }

  /** An unconfirmed delete issues no request and changes nothing. */
  lemma DeleteNeedsConfirmation(s: PageState, id: Option<int>)
    ensures Step(s, DeleteRequested(id, false)) == Transition(s, [])
  {
  }

  /** A failed status update rolls back through a reload: whatever the
      optimistic change was, the tasks end up as the list the API delivers. */
  lemma ToggleFailureRollsBack(s: PageState, tarefa: Task, server: seq<Task>)
    ensures var r := Run(s, [ToggleRequested(tarefa), ToggleReplied(false), LoadReplied(Delivered(server))]);
      && r.next.tarefas == server
      && r.next.error == Some(StatusUpdateFailed)
      && !r.next.isLoading
      && r.calls == [Update(tarefa.id, ToPayload(Toggled(tarefa))), GetAll]
  {
    var es := [ToggleRequested(tarefa), ToggleReplied(false), LoadReplied(Delivered(server))];
    var s1 := Step(s, es[0]).next;
    var s2 := Step(s1, es[1]).next;
    assert es[1..][1..] == [LoadReplied(Delivered(server))];
    assert Run(s2, es[1..][1..]) == Transition(OnLoadReply(s2, Delivered(server)).next, []);
    assert Run(s1, es[1..]).calls == [GetAll];
    assert Run(s, es).next == Run(s1, es[1..]).next == Run(s2, es[1..][1..]).next;
  }

  /** With distinct ids, toggling a listed task changes that one task's
      status and nothing else. */
  lemma ToggleTouchesOneTask(ts: seq<Task>, k: nat)
    requires k < |ts| && UniqueIds(ts)
    ensures ApplyToggle(ts, ts[k]) == ts[k := Toggled(ts[k])]
    ensures UniqueIds(ApplyToggle(ts, ts[k]))
  {
    assert ApplyToggle(ts, ts[k]) == ts[k := Toggled(ts[k])];
  }

  /** Toggling a listed task and then its toggled copy restores the list,
      unless it was in progress (it comes back pending). */
  lemma ToggleTwiceRestores(ts: seq<Task>, k: nat)
    requires k < |ts| && UniqueIds(ts)
    ensures ts[k].status != EmAndamento ==>
      ApplyToggle(ApplyToggle(ts, ts[k]), Toggled(ts[k])) == ts
    ensures ts[k].status == EmAndamento ==>
      ApplyToggle(ApplyToggle(ts, ts[k]), Toggled(ts[k])) == ts[k := ts[k].(status := Pendente)]
  {
    ToggleTouchesOneTask(ts, k);
    var once := ApplyToggle(ts, ts[k]);
    assert once[k] == Toggled(ts[k]);
    ToggleTouchesOneTask(once, k);
    FlipTwice(ts[k].status);
  }
}
