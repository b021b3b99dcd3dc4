/**
 * The manager's Job Vacancies screen: a table of vacancies with a dialog to
 * create or edit one, a delete button and a status badge that toggles a
 * vacancy between "active" and "closed".
 *
 * Each handler replaces the list or the form with a value computed by `map`,
 * `filter` or object spread; those values are the functions below, and the
 * component's state with its handlers is the class `VacancyManager`.
 */
module JobVacancies {
  import opened Lists

  datatype Vacancy = Vacancy(
    id: int,
    title: string,
    department: string,
    location: string,
    status: string,
    requirements: string,
    applicants: int,
    createdAt: string)

  /** The four fields of the create/edit dialog. */
  datatype Form = Form(title: string, department: string, location: string, requirements: string)

  /** The `name` attribute of the dialog's four inputs. */
  datatype FormField = Title | Department | Location | Requirements

  const EmptyForm := Form("", "", "", "")

  function Get(f: Form, name: FormField): string
  {
    match name
    case Title => f.title
    case Department => f.department
    case Location => f.location
    case Requirements => f.requirements
  }

  /* ---------------- Form values ---------------- */

  /** `{ ...prev, [name]: value }` in `handleInputChange`: the named field
      takes the value and the other three keep theirs. */
  function SetField(f: Form, name: FormField, value: string): (r: Form)
    ensures Get(r, name) == value
    ensures forall other :: other != name ==> Get(r, other) == Get(f, other)
  {
    match name
    case Title => f.(title := value)
    case Department => f.(department := value)
    case Location => f.(location := value)
    case Requirements => f.(requirements := value)
  }

  /** The form `openEditVacancyForm` fills from a vacancy. */
  function FormOf(v: Vacancy): Form
  {
    Form(v.title, v.department, v.location, v.requirements)
  }

  /** `{ ...v, ...formData }`: the four form fields replace the vacancy's. */
  function WithForm(v: Vacancy, f: Form): (r: Vacancy)
    ensures FormOf(r) == f
    ensures r.id == v.id && r.status == v.status && r.applicants == v.applicants && r.createdAt == v.createdAt
  {
    v.(title := f.title, department := f.department, location := f.location, requirements := f.requirements)
  }

  /* ---------------- List values ---------------- */

  /** No two vacancies share an id. */
  ghost predicate UniqueIds(vs: seq<Vacancy>)
  {
    forall i, j :: 0 <= i < j < |vs| ==> vs[i].id != vs[j].id
  }

  /** The edit branch of `handleSubmit`: every vacancy whose id is `id` takes
      the form's four fields and keeps its id, status, applicant count and
      creation date; every other vacancy is unchanged. */
  function ApplyEdit(vs: seq<Vacancy>, id: int, f: Form): (r: seq<Vacancy>)
    ensures |r| == |vs|
    ensures forall i :: 0 <= i < |vs| ==> r[i].id == vs[i].id && r[i].status == vs[i].status
                                          && r[i].applicants == vs[i].applicants && r[i].createdAt == vs[i].createdAt
    ensures forall i :: 0 <= i < |vs| && vs[i].id == id ==> FormOf(r[i]) == f
    ensures forall i :: 0 <= i < |vs| && vs[i].id != id ==> r[i] == vs[i]
  {
    seq(|vs|, i requires 0 <= i < |vs| => if vs[i].id == id then WithForm(vs[i], f) else vs[i])
  }

  /** The status a click on the badge gives: "active" becomes "closed", anything else "active". */
  function Toggled(status: string): (r: string)
    ensures r == "active" || r == "closed"
    ensures r == "closed" <==> status == "active"
  {
    if status == "active" then "closed" else "active"
  }

  /** `toggleVacancyStatus`: every vacancy whose id is `id` has its status
      toggled and keeps every other field; every other vacancy is unchanged. */
  function ToggleStatus(vs: seq<Vacancy>, id: int): (r: seq<Vacancy>)
    ensures |r| == |vs|
    ensures forall i :: 0 <= i < |vs| && vs[i].id == id ==> r[i] == vs[i].(status := Toggled(vs[i].status))
    ensures forall i :: 0 <= i < |vs| && vs[i].id != id ==> r[i] == vs[i]
  {
    seq(|vs|, i requires 0 <= i < |vs| => if vs[i].id == id then vs[i].(status := Toggled(vs[i].status)) else vs[i])
  }

  /** The predicate `v => v.id !== id` of `deleteVacancy`. */
  function IdIsNot(id: int): Vacancy -> bool
  {
    (v: Vacancy) => v.id != id
  }

  function IdIs(id: int): Vacancy -> bool
  {
    (v: Vacancy) => v.id == id
  }

  /** `deleteVacancy`: no vacancy with that id remains; every other vacancy
      remains, in its original order. */
  function Remove(vs: seq<Vacancy>, id: int): (r: seq<Vacancy>)
    ensures IsSubsequence(r, vs)
    ensures forall i :: 0 <= i < |r| ==> r[i].id != id
    ensures forall v :: v in vs && v.id != id ==> v in r
  {
    var r := Filter(vs, IdIsNot(id));
    forall v | v in vs && v.id != id ensures v in r {
      FilterMembership(vs, IdIsNot(id), v);
    }
    r
  }

  /** The record the create branch of `handleSubmit` appends; its date is
      passed in, where the component reads the clock. */
  function NewVacancy(id: int, f: Form, createdAt: string): (v: Vacancy)
    ensures v.id == id && FormOf(v) == f && v.status == "active" && v.applicants == 0 && v.createdAt == createdAt
  {
    Vacancy(id, f.title, f.department, f.location, "active", f.requirements, 0, createdAt)
  }

  /** The id the component gives a new vacancy: one more than the list's length. */
  function NextIdAsWritten(vs: seq<Vacancy>): (id: int)
    ensures id > |vs|
  {
    |vs| + 1
  }

  /** The create branch of `handleSubmit` as the component writes it: the new
      vacancy, with id one more than the list's length, goes after the unchanged list. */
  function CreateAsWritten(vs: seq<Vacancy>, f: Form, createdAt: string): (r: seq<Vacancy>)
    ensures |r| == |vs| + 1 && r[..|vs|] == vs
    ensures r[|vs|] == NewVacancy(NextIdAsWritten(vs), f, createdAt) && r[|vs|].id > |vs|
  {
    vs + [NewVacancy(NextIdAsWritten(vs), f, createdAt)]
  }

  /** The largest id in the list, or 0 for an empty list. */
  function MaxId(vs: seq<Vacancy>): (m: int)
    ensures m >= 0
    ensures forall i :: 0 <= i < |vs| ==> vs[i].id <= m
    ensures m == 0 || exists i :: 0 <= i < |vs| && vs[i].id == m
  {
    if vs == [] then 0
    else
      var m := MaxId(vs[1..]);
      assert forall i :: 1 <= i < |vs| ==> vs[i] == vs[1..][i - 1];
      if vs[0].id > m then vs[0].id else m
  }

  /** An id that no vacancy in the list has: one more than the largest. */
  function FreshId(vs: seq<Vacancy>): (id: int)
    ensures id > 0
    ensures forall i :: 0 <= i < |vs| ==> vs[i].id != id
  {
    MaxId(vs) + 1
  }

  /** The create branch of `handleSubmit`, with the fresh id. */
  function Create(vs: seq<Vacancy>, f: Form, createdAt: string): (r: seq<Vacancy>)
    ensures |r| == |vs| + 1 && r[..|vs|] == vs
    ensures r[|vs|] == NewVacancy(FreshId(vs), f, createdAt)
  {
    vs + [NewVacancy(FreshId(vs), f, createdAt)]
  }

  /* ---------------- Properties of the list operations ---------------- */

  /** Clicking the badge of a vacancy twice restores it when its status was
      "active" or "closed" (any other status ends up "closed"). */
  lemma ToggleTwice(vs: seq<Vacancy>, id: int)
    ensures |ToggleStatus(ToggleStatus(vs, id), id)| == |vs|
    ensures forall i :: 0 <= i < |vs| && (vs[i].status == "active" || vs[i].status == "closed")
                     ==> ToggleStatus(ToggleStatus(vs, id), id)[i] == vs[i]
    ensures forall i :: 0 <= i < |vs| && vs[i].id == id && vs[i].status != "active" && vs[i].status != "closed"
                     ==> ToggleStatus(ToggleStatus(vs, id), id)[i].status == "closed"
  {
  }

  /** Editing twice with the same form is the same as editing once. */
  lemma EditIdempotent(vs: seq<Vacancy>, id: int, f: Form)
    ensures ApplyEdit(ApplyEdit(vs, id, f), id, f) == ApplyEdit(vs, id, f)
  {
  }

  /** Deleting an id that no vacancy has leaves the list unchanged. */
  lemma RemoveAbsent(vs: seq<Vacancy>, id: int)
    requires forall i :: 0 <= i < |vs| ==> vs[i].id != id
    ensures Remove(vs, id) == vs
  {
    FilterKeepsAll(vs, IdIsNot(id));
  }

  /** Deleting removes exactly as many vacancies as carry the id. */
  lemma {:induction false} RemoveCount(vs: seq<Vacancy>, id: int)
    ensures |Remove(vs, id)| == |vs| - |Filter(vs, IdIs(id))|
  {
    if vs != [] {
      RemoveCount(vs[1..], id);
      assert vs == [vs[0]] + vs[1..];
      FilterCons(vs[0], vs[1..], IdIsNot(id));
      FilterCons(vs[0], vs[1..], IdIs(id));
    }
  }

  /** Editing and toggling keep every id in place, so they keep ids unique. */
  lemma EditToggleKeepIds(vs: seq<Vacancy>, id: int, f: Form)
    requires UniqueIds(vs)
    ensures UniqueIds(ApplyEdit(vs, id, f)) && UniqueIds(ToggleStatus(vs, id))
  {
  }

  /** A subsequence of a list with unique ids has unique ids. */
  lemma {:induction false} SubsequenceUniqueIds(r: seq<Vacancy>, s: seq<Vacancy>)
    requires IsSubsequence(r, s) && UniqueIds(s)
    ensures UniqueIds(r)
    ensures forall x :: x in r ==> x in s
  {
    if r != [] {
      assert UniqueIds(s[1..]) by {
        forall i, j | 0 <= i < j < |s[1..]| ensures s[1..][i].id != s[1..][j].id {
          assert s[1..][i] == s[i + 1] && s[1..][j] == s[j + 1];
        }
      }
      if r[0] == s[0] && IsSubsequence(r[1..], s[1..]) {
        SubsequenceUniqueIds(r[1..], s[1..]);
        forall j | 0 < j < |r| ensures r[0].id != r[j].id {
          assert r[j] == r[1..][j - 1] && r[j] in s[1..];
          var k :| 0 <= k < |s[1..]| && s[1..][k] == r[j];
          assert s[k + 1] == r[j];
        }
        forall x | x in r ensures x in s {
          if x != r[0] {
            assert x in r[1..];
          }
        }
      } else {
        SubsequenceUniqueIds(r, s[1..]);
      }
    }
  }

  /** Deleting keeps ids unique. */
  lemma RemoveKeepsIds(vs: seq<Vacancy>, id: int)
    requires UniqueIds(vs)
    ensures UniqueIds(Remove(vs, id))
  {
    SubsequenceUniqueIds(Remove(vs, id), vs);
  }

  /** Creating with the fresh id keeps ids unique. */
  lemma CreateKeepsIds(vs: seq<Vacancy>, f: Form, createdAt: string)
    requires UniqueIds(vs)
    ensures UniqueIds(Create(vs, f, createdAt))
  {
  }

  /** While the ids are exactly 1, 2, ..., n in order (as in the seed data,
      before any delete), the fresh id is the component's `length + 1`. */
  lemma {:induction false} FreshIdAgreesWhileDense(vs: seq<Vacancy>)
    requires forall i :: 0 <= i < |vs| ==> vs[i].id == i + 1
    ensures FreshId(vs) == NextIdAsWritten(vs)
  {
    if vs != [] {
      var last := vs[|vs| - 1];
      assert MaxId(vs) >= last.id == |vs|;
    }
  }

  /** The id the component computes can repeat an existing one: from ids
      1, 2, 3, deleting 1 and creating a vacancy gives a second vacancy with id 3. */
  lemma NextIdAsWrittenCollides(f: Form, createdAt: string)
    ensures var vs := [NewVacancy(1, f, createdAt), NewVacancy(2, f, createdAt), NewVacancy(3, f, createdAt)];
            UniqueIds(vs) && !UniqueIds(CreateAsWritten(Remove(vs, 1), f, createdAt))
  {
    var vs := [NewVacancy(1, f, createdAt), NewVacancy(2, f, createdAt), NewVacancy(3, f, createdAt)];
    var p := IdIsNot(1);
    FilterCons(vs[0], vs[1..], p);
    FilterCons(vs[1], vs[2..], p);
    FilterCons(vs[2], [], p);
    assert vs[1..] == [vs[1]] + vs[2..];
    assert vs[2..] == [vs[2]] + [];
    var rest := Remove(vs, 1);
    assert rest == [vs[1], vs[2]];
    var created := CreateAsWritten(rest, f, createdAt);
    assert created[1].id == created[2].id == 3;
  }

  /* ---------------- The component ---------------- */

  /** The state of the Job Vacancies component and its handlers. */
  class VacancyManager {
    var vacancies: seq<Vacancy>
    var open: bool
    var isEditing: bool
    var currentVacancy: Option<Vacancy>
    var formData: Form

    constructor (seed: seq<Vacancy>)
      ensures vacancies == seed
      ensures !open && !isEditing && currentVacancy == None && formData == EmptyForm
    {
      vacancies := seed;
      open := false;
      isEditing := false;
      currentVacancy := None;
      formData := EmptyForm;
    }

    method HandleInputChange(name: FormField, value: string)
      modifies this
      ensures formData == SetField(old(formData), name, value)
      ensures vacancies == old(vacancies) && open == old(open) && isEditing == old(isEditing)
      ensures currentVacancy == old(currentVacancy)
    {
      formData := SetField(formData, name, value);
    }

    method OpenNewVacancyForm()
      modifies this
      ensures formData == EmptyForm && !isEditing && open
      ensures vacancies == old(vacancies) && currentVacancy == old(currentVacancy)
    {
      formData := EmptyForm;
      isEditing := false;
      open := true;
    }

    method OpenEditVacancyForm(v: Vacancy)
      modifies this
      ensures formData == FormOf(v) && currentVacancy == Some(v) && isEditing && open
      ensures vacancies == old(vacancies)
    {
      formData := FormOf(v);
      currentVacancy := Some(v);
      isEditing := true;
      open := true;
    }

    /** The dialog's `onOpenChange` and its Cancel button. */
    method SetOpen(value: bool)
      modifies this
      ensures open == value
      ensures vacancies == old(vacancies) && formData == old(formData)
      ensures isEditing == old(isEditing) && currentVacancy == old(currentVacancy)
    {
      open := value;
    }

    /** Edits the vacancy being edited, or creates one; either way the dialog closes. */
    method HandleSubmit(today: string)
      modifies this
      ensures !open
      ensures old(isEditing) && old(currentVacancy).Some? ==>
                vacancies == ApplyEdit(old(vacancies), old(currentVacancy).value.id, old(formData))
      ensures !(old(isEditing) && old(currentVacancy).Some?) ==>
                vacancies == Create(old(vacancies), old(formData), today)
      ensures UniqueIds(old(vacancies)) ==> UniqueIds(vacancies)
      ensures formData == old(formData) && isEditing == old(isEditing) && currentVacancy == old(currentVacancy)
    {
      if isEditing && currentVacancy.Some? {
        ghost var before := vacancies;
        vacancies := ApplyEdit(vacancies, currentVacancy.value.id, formData);
        if UniqueIds(before) {
          EditToggleKeepIds(before, currentVacancy.value.id, formData);
        }
      } else {
        ghost var before := vacancies;
        vacancies := Create(vacancies, formData, today);
        if UniqueIds(before) {
          CreateKeepsIds(before, formData, today);
        }
      }
      open := false;
    }

    method DeleteVacancy(id: int)
      modifies this
      ensures vacancies == Remove(old(vacancies), id)
      ensures UniqueIds(old(vacancies)) ==> UniqueIds(vacancies)
      ensures open == old(open) && formData == old(formData)
      ensures isEditing == old(isEditing) && currentVacancy == old(currentVacancy)
    {
      ghost var before := vacancies;
      vacancies := Remove(vacancies, id);
      if UniqueIds(before) {
        RemoveKeepsIds(before, id);
      }
    }

    method ToggleVacancyStatus(id: int)
      modifies this
      ensures vacancies == ToggleStatus(old(vacancies), id)
      ensures UniqueIds(old(vacancies)) ==> UniqueIds(vacancies)
      ensures open == old(open) && formData == old(formData)
      ensures isEditing == old(isEditing) && currentVacancy == old(currentVacancy)
    {
      ghost var before := vacancies;
      vacancies := ToggleStatus(vacancies, id);
      if UniqueIds(before) {
        EditToggleKeepIds(before, id, formData);
      }
    }
  }
}
