/** The task record exchanged with the task API, the payloads the form sends,
    and the status flip used by the list's toggle button. */
module Tasks {
  import opened Wrappers

  /** The three status values the API uses: `Pendente`, `Em Andamento`, `Concluída`. */
  datatype Status = Pendente | EmAndamento | Concluida

  /** A calendar day in local time: what `getFullYear`, `getMonth` and
      `getDate` read off a JavaScript `Date`. */
  datatype Date = Date(year: int, month: int, day: int)

  /** A timestamp as the API sends it: its text, the instant it parses to
      (used for ordering), and the local calendar day it falls on. */
  datatype Instant = Instant(text: string, at: int, day: Date)

  /** One task. A missing start or end (`None`) is `null`; an instant with
      empty text is the empty string, which is falsy like `null`. */
  datatype Task = Task(
    id: Option<int>,
    nome: string,
    descricao: string,
    status: Status,
    horarioInicio: Option<Instant>,
    horarioFim: Option<Instant>)

  /** The day keys of the form's weekday selector. */
  datatype Weekday = Monday | Tuesday | Wednesday | Thursday | Friday | Saturday | Sunday

  /** Body of a create or update request for one task. */
  datatype TaskPayload = TaskPayload(
    id: Option<int>,
    nome: string,
    descricao: string,
    status: Status,
    horarioInicio: Option<string>,
    horarioFim: Option<string>)

  /** Body of a create-recurring request: one payload for the whole weekday
      selection. A time of `None` is a field left `undefined`. */
  datatype RecurringPayload = RecurringPayload(
    nome: string,
    descricao: string,
    status: Status,
    diasDaSemana: seq<Weekday>,
    horarioInicio: Option<string>,
    horarioFim: Option<string>)

  /** JavaScript truthiness of a numeric id: `null` and `0` are falsy. */
  predicate IdTruthy(id: Option<int>) {
    id.Some? && id.value != 0
  }

  predicate IsDone(t: Task) {
    t.status == Concluida
  }

  predicate IsPending(t: Task) {
    !IsDone(t)
  }

  /** JavaScript truthiness of `horarioInicio`: present and non-empty. */
  predicate HasStart(t: Task) {
    t.horarioInicio.Some? && t.horarioInicio.value.text != ""
  }

  predicate NoStart(t: Task) {
    !HasStart(t)
  }

  /** The start instant, or 0 for a task without one (only ever compared
      between tasks that both have a start). */
  function StartKey(t: Task): int {
    if HasStart(t) then t.horarioInicio.value.at else 0
  }

  /** The status the toggle button asks for: a completed task goes back to
      pending, every other task (in progress included) becomes completed. */
  function FlipStatus(s: Status): (r: Status)
    ensures r != EmAndamento
    ensures r == Concluida <==> s != Concluida
  {
    if s == Concluida then Pendente else Concluida
  }

  /** Flipping twice restores exactly the two statuses the toggle produces;
      an in-progress task comes back as pending, not in progress. */
  lemma FlipTwice(s: Status)
    ensures FlipStatus(FlipStatus(s)) == s <==> s != EmAndamento
    ensures s == EmAndamento ==> FlipStatus(FlipStatus(s)) == Pendente
  {
  }

  /** The request body for a task held by the page (`{ ...tarefa }`): the
      same fields, with each timestamp sent back as the text it arrived as,
      the empty string included, and `null` kept `null`. */
  function ToPayload(t: Task): (p: TaskPayload)
    ensures p.id == t.id && p.nome == t.nome && p.descricao == t.descricao && p.status == t.status
    ensures p.horarioInicio.None? <==> t.horarioInicio.None?
    ensures p.horarioInicio.Some? ==> p.horarioInicio.value == t.horarioInicio.value.text
    ensures p.horarioFim.None? <==> t.horarioFim.None?
    ensures p.horarioFim.Some? ==> p.horarioFim.value == t.horarioFim.value.text
  {
    TaskPayload(
      t.id, t.nome, t.descricao, t.status,
      if t.horarioInicio.Some? then Some(t.horarioInicio.value.text) else None,
      if t.horarioFim.Some? then Some(t.horarioFim.value.text) else None)
  }

  /** No two tasks share an id (what the API is expected to provide). */
  ghost predicate UniqueIds(ts: seq<Task>) {
    forall i, j :: 0 <= i < j < |ts| ==> ts[i].id != ts[j].id
  }
}
