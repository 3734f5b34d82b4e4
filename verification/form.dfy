/** The task form: what opening it for a task fills in, the weekday
    selector, the time inputs, and which save callback a submit fires with
    which payload. */
module Form {
  import opened Wrappers
  import opened Seqs
  import opened Tasks
  import opened TimeText
  import opened Utf16

  /** The alert shown when the name is empty. */
  const NameRequired: string := "O nome da tarefa é obrigatório."

  /** The form's fields, and the task it was opened to edit (if any). Times
      hold exactly what the inputs stored, `""` when untouched. */
  datatype FormState = FormState(
    nome: string,
    descricao: string,
    horarioInicio: string,
    horarioFim: string,
    diasSelecionados: seq<Weekday>,
    tarefaToEdit: Option<Task>)

  /** What a stored timestamp becomes in a `datetime-local` input: its
      first 16 characters (`YYYY-MM-DDTHH:MM`), or `""` without one. */
  function TimeInput(i: Option<Instant>): (s: string)
    ensures i.None? ==> s == ""
    ensures i.Some? ==> s <= i.value.text
    ensures i.Some? ==> |s| == if |i.value.text| < 16 then |i.value.text| else 16
    ensures i.Some? && InBmp(i.value.text) ==>
      Utf16Length(s) == if Utf16Length(i.value.text) < 16 then Utf16Length(i.value.text) else 16
  {
    if i.Some? then Cut16(i.value.text) else ""
  }

  /** The form as its effect leaves it when it is opened, for a new task
      (`None`) or to edit one: no weekday selected, fields blank or taken
      from the task. */
  function Open(edit: Option<Task>): (f: FormState)
    ensures f.diasSelecionados == [] && f.tarefaToEdit == edit
    ensures edit.None? ==> f.nome == "" && f.descricao == "" && f.horarioInicio == "" && f.horarioFim == ""
    ensures edit.Some? ==> f.nome == edit.value.nome && f.descricao == edit.value.descricao
    ensures edit.Some? ==> f.horarioInicio == TimeInput(edit.value.horarioInicio)
    ensures edit.Some? ==> f.horarioFim == TimeInput(edit.value.horarioFim)
  {
    match edit
    case None => FormState("", "", "", "", [], None)
    case Some(t) => FormState(t.nome, t.descricao, TimeInput(t.horarioInicio), TimeInput(t.horarioFim), [], edit)
  }

  /** The form is in recurring mode: some weekday is selected and no task is
      being edited. */
  predicate IsRecurring(f: FormState) {
    |f.diasSelecionados| > 0 && f.tarefaToEdit.None?
  }

  predicate Differ(a: Weekday, b: Weekday) {
    a != b
  }

  /** No weekday occurs twice. */
  ghost predicate NoDuplicates(s: seq<Weekday>) {
    Chain(s, Differ)
  }

  /** A click on a weekday button: a selected day is removed, an unselected
      one is appended at the end. */
  function ToggleDay(prev: seq<Weekday>, k: Weekday): (r: seq<Weekday>)
    ensures k in r <==> k !in prev
    ensures forall d :: d != k ==> (d in r <==> d in prev)
    ensures k !in prev ==> r == prev + [k]
    ensures k in prev ==> Subseq(r, prev)
    ensures NoDuplicates(prev) ==> NoDuplicates(r)
  {
    if k in prev then
      var r := Filter(prev, d => d != k);
      assert NoDuplicates(prev) ==> NoDuplicates(r) by {
        if NoDuplicates(prev) {
          SubseqChain(r, prev, Differ);
        }
      }
      r
    else
      var r := prev + [k];
      assert NoDuplicates(prev) ==> NoDuplicates(r) by {
        if NoDuplicates(prev) {
          ChainAppend(prev, [k], Differ);
        }
      }
      r
  }

  /** Clicking the same day twice restores the selection as a set, and
      restores the very sequence when the day was not selected before. */
  lemma ToggleDayTwice(prev: seq<Weekday>, k: Weekday)
    ensures forall d :: d in ToggleDay(ToggleDay(prev, k), k) <==> d in prev
    ensures k !in prev ==> ToggleDay(ToggleDay(prev, k), k) == prev
  {
    if k !in prev {
      FilterKeepsAll(prev, k);
      FilterDropsLast(prev, k);
    }
  }

  /** Filtering out a key that does not occur changes nothing. */
  lemma {:induction false} FilterKeepsAll(s: seq<Weekday>, k: Weekday)
    requires k !in s
    ensures Filter(s, d => d != k) == s
  {
    if s != [] {
      FilterKeepsAll(s[1..], k);
      assert [s[0]] + s[1..] == s;
    }
  }

  /** Filtering out a key just appended to a sequence without it removes
      exactly that last element. */
  lemma {:induction false} FilterDropsLast(s: seq<Weekday>, k: Weekday)
    requires k !in s
    ensures Filter(s + [k], d => d != k) == s
  {
    if s == [] {
      assert s + [k] == [k];
    } else {
      assert (s + [k])[1..] == s[1..] + [k];
      FilterDropsLast(s[1..], k);
      assert [s[0]] + s[1..] == s;
    }
  }

  /** Which of the two time inputs changed. */
  datatype TimeField = Start | End

  /** `handleTimeChange`: in recurring mode the `HH:MM` value is stored
      behind the fixed date; otherwise the `datetime-local` value is stored
      as it is. */
  function ChangeTime(f: FormState, field: TimeField, value: string): (g: FormState)
    ensures IsRecurring(g) == IsRecurring(f)
    ensures g.nome == f.nome && g.descricao == f.descricao
    ensures g.diasSelecionados == f.diasSelecionados && g.tarefaToEdit == f.tarefaToEdit
    ensures field == Start ==> g.horarioFim == f.horarioFim
    ensures field == End ==> g.horarioInicio == f.horarioInicio
    ensures Stored(g, field) == if IsRecurring(f) then RecurringDate + "T" + value else value
  {
    var stored := if IsRecurring(f) then InRecurringDate(value) else value;
    match field
    case Start => f.(horarioInicio := stored)
    case End => f.(horarioFim := stored)
  }

  function Stored(f: FormState, field: TimeField): string {
    match field
    case Start => f.horarioInicio
    case End => f.horarioFim
  }

  /** What a time input shows: the part after `'T'` (or nothing) in
      recurring mode, the stored value otherwise. */
  function DisplayedTime(f: FormState, field: TimeField): string {
    if IsRecurring(f) then AfterT(Stored(f, field)).GetOr("") else Stored(f, field)
  }

  /** A value typed into a time input is what the input then shows, unless
      in recurring mode it carries a `'T'` of its own. */
  lemma TimeInputShowsTyped(f: FormState, field: TimeField, v: string)
    ensures DisplayedTime(ChangeTime(f, field, v), field) == v <==> !IsRecurring(f) || 'T' !in v
  {
    RecurringTimeRoundTrip(v);
    if IsRecurring(f) && 'T' in v {
      var shown := AfterT(InRecurringDate(v));
      assert shown.Some? ==> 'T' !in shown.value;
    }
  }

  /** What a submit does: nothing but an alert, or one of the two save
      callbacks with its payload. */
  datatype Submission =
    | Rejected(alert: string)
    | SaveSingle(tarefa: TaskPayload)
    | SaveRecurring(data: RecurringPayload)

  /** A recurring time: the part after `'T'` of what was stored, or the
      default when nothing was. */
  function RecurringTime(stored: string, default: string): Option<string> {
    if stored != "" then AfterT(stored) else Some(default)
  }

  /** A single-task time: the input with seconds appended, or `null`. */
  function SingleTime(stored: string): Option<string> {
    if stored != "" then Some(WithSeconds(stored)) else None
  }

  /** `handleSubmit`. */
  function Submit(f: FormState): (s: Submission)
    ensures s.Rejected? <==> f.nome == ""
    ensures s.SaveRecurring? <==> f.nome != "" && IsRecurring(f)
    ensures s.SaveSingle? <==> f.nome != "" && !IsRecurring(f)
    ensures s.SaveRecurring? ==>
      && s.data.nome == f.nome && s.data.descricao == f.descricao
      && s.data.status == Pendente
      && s.data.diasDaSemana == f.diasSelecionados
      && s.data.horarioInicio == (if f.horarioInicio == "" then Some(DefaultStart) else AfterT(f.horarioInicio))
      && s.data.horarioFim == (if f.horarioFim == "" then Some(DefaultEnd) else AfterT(f.horarioFim))
    ensures s.SaveSingle? ==>
      && s.tarefa.nome == f.nome && s.tarefa.descricao == f.descricao
      && s.tarefa.id == (if f.tarefaToEdit.Some? then f.tarefaToEdit.value.id else None)
      && s.tarefa.status == (if f.tarefaToEdit.Some? then f.tarefaToEdit.value.status else Pendente)
      && s.tarefa.horarioInicio == (if f.horarioInicio == "" then None else Some(f.horarioInicio + ":00"))
      && s.tarefa.horarioFim == (if f.horarioFim == "" then None else Some(f.horarioFim + ":00"))
  {
    if f.nome == "" then
      Rejected(NameRequired)
    else if IsRecurring(f) then
      SaveRecurring(RecurringPayload(
        f.nome, f.descricao, Pendente, f.diasSelecionados,
        RecurringTime(f.horarioInicio, DefaultStart),
        RecurringTime(f.horarioFim, DefaultEnd)))
    else
      SaveSingle(TaskPayload(
        if f.tarefaToEdit.Some? then f.tarefaToEdit.value.id else None,
        f.nome, f.descricao,
        if f.tarefaToEdit.Some? then f.tarefaToEdit.value.status else Pendente,
        SingleTime(f.horarioInicio),
        SingleTime(f.horarioFim)))
  }

  /** In recurring mode the times a user types reach the payload unchanged,
      provided they carry no `'T'`. */
  lemma RecurringSubmitSendsTypedTimes(f: FormState, start: string, end: string)
    requires f.nome != "" && IsRecurring(f)
    requires 'T' !in start && 'T' !in end
    ensures var g := ChangeTime(ChangeTime(f, Start, start), End, end);
      Submit(g) == SaveRecurring(RecurringPayload(
        f.nome, f.descricao, Pendente, f.diasSelecionados, Some(start), Some(end)))
  {
    RecurringTimeRoundTrip(start);
    RecurringTimeRoundTrip(end);
  }

  /** A stored timestamp the edit form can send back unchanged:
      `YYYY-MM-DDTHH:MM:00`, in the Basic Multilingual Plane so that the
      16-unit cut keeps 16 characters. */
  predicate Canonical(i: Option<Instant>) {
    i.Some? ==> |i.value.text| == 19 && i.value.text[16..] == ":00" && InBmp(i.value.text)
  }

  /** Opening a task for editing and saving without changes sends the task
      back as it is, when its timestamps are `YYYY-MM-DDTHH:MM:00`. */
  lemma EditResubmitUnchanged(t: Task)
    requires t.nome != ""
    requires Canonical(t.horarioInicio) && Canonical(t.horarioFim)
    ensures Submit(Open(Some(t))) == SaveSingle(ToPayload(t))
  {
    if t.horarioInicio.Some? {
      CutThenSecondsRoundTrip(t.horarioInicio.value.text);
    }
    if t.horarioFim.Some? {
      CutThenSecondsRoundTrip(t.horarioFim.value.text);
    }
  }
}
