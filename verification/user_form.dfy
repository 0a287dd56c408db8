/** The add/edit user form: its validation schema and the create and edit
    mutations with their optimistic patches. */
module UserForm {

  import opened Optional
  import opened Users
  import opened Seqs
  import opened ActivityLog
  import opened Optimistic

  /** The four form fields. */
  datatype FormValues = FormValues(name: string, email: string, phone: string, company: string)

  /** A field the schema rejected. */
  datatype Field = NameField | EmailField | PhoneField | CompanyField

  /** Whether the form adds a user or edits `user`. */
  datatype Mode = AddMode | EditMode(user: User)

  /** The rejected fields in schema order: `min(1)` on name, phone and
      company; the email rule is the parameter `emailValid`. */
  function Issues(v: FormValues, emailValid: string -> bool): seq<Field>
  {
    (if |v.name| < 1 then [NameField] else [])
    + (if !emailValid(v.email) then [EmailField] else [])
    + (if |v.phone| < 1 then [PhoneField] else [])
    + (if |v.company| < 1 then [CompanyField] else [])
  }

  /** The schema: the values are accepted exactly when name, phone and
      company are non-empty and the email is valid; otherwise every failing
      field is reported. */
  function Validate(v: FormValues, emailValid: string -> bool): (r: Result<FormValues, seq<Field>>)
    ensures r.Ok? <==> v.name != "" && emailValid(v.email) && v.phone != "" && v.company != ""
    ensures r.Ok? ==> r.value == v
    ensures r.Err? ==> (NameField in r.error <==> v.name == "")
    ensures r.Err? ==> (EmailField in r.error <==> !emailValid(v.email))
    ensures r.Err? ==> (PhoneField in r.error <==> v.phone == "")
    ensures r.Err? ==> (CompanyField in r.error <==> v.company == "")
  {
    var issues := Issues(v, emailValid);
    if issues == [] then Ok(v) else Err(issues)
  }

  /** The floor under provisional ids. */
  const IdFloor := 101

  /** `Math.max(floor, ...users.map((u) => u.id))`. */
  function MaxId(floor: int, users: seq<User>): (m: int)
    ensures m >= floor
    ensures forall u :: u in users ==> u.id <= m
    ensures m == floor || exists i :: 0 <= i < |users| && users[i].id == m
  {
    if |users| == 0 then floor else Max(users[0].id, MaxId(floor, users[1..]))
  }

  /** The id given to an optimistic record: one above the largest of 101 and
      every existing id, hence at least 102 and used by nobody. */
  function ProvisionalId(prev: seq<User>): (r: int)
    ensures r >= IdFloor + 1
    ensures forall u :: u in prev ==> u.id < r
    ensures r == IdFloor + 1 || exists i :: 0 <= i < |prev| && prev[i].id == r - 1
  {
    MaxId(IdFloor, prev) + 1
  }

  /** The optimistic record for the create mutation. */
  function OptimisticUser(values: FormValues, id: int): User
  {
    User(id, values.name, "", values.email, values.phone, "", values.company, EmptyAddress)
  }

  /** `[optimistic, ...prev]`: the new record first, the rest untouched. It
      carries the form's name, email, phone and company, the provisional id, and
      empty username, website and address. */
  function AddPatch(prev: seq<User>, values: FormValues): (r: seq<User>)
    ensures |r| == |prev| + 1 && r[1..] == prev
    ensures forall u :: u in prev ==> u.id != r[0].id
    ensures r[0].id == ProvisionalId(prev) && r[0].id >= IdFloor + 1
    ensures r[0].name == values.name && r[0].email == values.email
    ensures r[0].phone == values.phone && r[0].company == values.company
    ensures r[0].username == "" && r[0].website == "" && r[0].address == Address("", "", "", "")
  {
    [OptimisticUser(values, ProvisionalId(prev))] + prev
  }

  /** `{ ...u, name, email, phone, company }`: the form's four fields over `u`. */
  function EditRecord(u: User, values: FormValues): User
  {
    u.(name := values.name, email := values.email, phone := values.phone, company := values.company)
  }

  /** `prev.map((u) => u.id === target ? { ...u, ... } : u)`. Length, order
      and ids are kept; each record with the target id takes the form's
      name, email, phone and company and keeps its other fields; every other
      record is unchanged. */
  function EditPatch(prev: seq<User>, target: int, values: FormValues): (r: seq<User>)
    ensures |r| == |prev|
    ensures forall i :: 0 <= i < |prev| ==> r[i].id == prev[i].id
    ensures forall i :: 0 <= i < |prev| && prev[i].id == target ==>
      && r[i].name == values.name && r[i].email == values.email
      && r[i].phone == values.phone && r[i].company == values.company
      && r[i].username == prev[i].username && r[i].website == prev[i].website
      && r[i].address == prev[i].address
    ensures forall i :: 0 <= i < |prev| && prev[i].id != target ==> r[i] == prev[i]
  {
    if |prev| == 0 then []
    else [if prev[0].id == target then EditRecord(prev[0], values) else prev[0]] + EditPatch(prev[1..], target, values)
  }

  /** Editing an id nobody has changes nothing; editing twice with the same
      values is editing once. */
  lemma EditAbsentOrRepeated(prev: seq<User>, target: int, values: FormValues)
    ensures (forall u :: u in prev ==> u.id != target) ==> EditPatch(prev, target, values) == prev
    ensures EditPatch(EditPatch(prev, target, values), target, values) == EditPatch(prev, target, values)
  {
  }

  /** The log entry of the create mutation. */
  function AddedEntry(values: FormValues, entryId: string, at: int): ActivityEntry
  {
    ActivityEntry(entryId, Add, "Added user " + values.name, at)
  }

  /** The log entry of the edit mutation. */
  function EditedEntry(values: FormValues, entryId: string, at: int): ActivityEntry
  {
    ActivityEntry(entryId, Edit, "Edited user " + values.name, at)
  }

  /** The create mutation. On success the cache holds the optimistic record
      in front of the snapshot; on failure exactly the snapshot; either way
      it is stale and the log has gained the "Added user" entry. */
  function CreateUser(s: Store, values: FormValues, entryId: string, at: int, outcome: RemoteOutcome): (r: Store)
    ensures r.cache.stale
    ensures r.log.entries == [ActivityEntry(entryId, Add, "Added user " + values.name, at)] + s.log.entries
    ensures outcome == Confirmed ==>
      var prev := s.cache.data.GetOr([]);
      r.cache.data.Some? && |r.cache.data.value| == |prev| + 1 && r.cache.data.value[1..] == prev
      && r.cache.data.value[0] == OptimisticUser(values, ProvisionalId(prev))
    ensures outcome == Rejected ==> r.cache.data == Some(s.cache.data.GetOr([]))
  {
    Mutate(s, (prev: seq<User>) => AddPatch(prev, values), AddedEntry(values, entryId, at), outcome)
  }

  /** The edit mutation for the record `user`. On success the cache holds the
      snapshot with that id's records edited; on failure exactly the
      snapshot; either way it is stale and the log has gained the "Edited
      user" entry. */
  function EditUser(s: Store, user: User, values: FormValues, entryId: string, at: int, outcome: RemoteOutcome): (r: Store)
    ensures r.cache.stale
    ensures r.log.entries == [ActivityEntry(entryId, Edit, "Edited user " + values.name, at)] + s.log.entries
    ensures outcome == Confirmed ==> r.cache.data == Some(EditPatch(s.cache.data.GetOr([]), user.id, values))
    ensures outcome == Rejected ==> r.cache.data == Some(s.cache.data.GetOr([]))
  {
    Mutate(s, (prev: seq<User>) => EditPatch(prev, user.id, values), EditedEntry(values, entryId, at), outcome)
  }

  /** `form.handleSubmit(onSubmit)`: rejected values start no mutation;
      accepted ones start the mutation for the form's mode. */
  function Submit(s: Store, mode: Mode, values: FormValues, emailValid: string -> bool,
                  entryId: string, at: int, outcome: RemoteOutcome): (r: Store)
    ensures Validate(values, emailValid).Err? ==> r == s
    ensures Validate(values, emailValid).Ok? ==> |r.log.entries| == |s.log.entries| + 1 && r.cache.stale
    ensures Validate(values, emailValid).Ok? && mode.AddMode? ==> r == CreateUser(s, values, entryId, at, outcome)
    ensures Validate(values, emailValid).Ok? && mode.EditMode? ==> r == EditUser(s, mode.user, values, entryId, at, outcome)
  {
    match Validate(values, emailValid)
    case Err(_) => s
    case Ok(v) =>
      match mode
      case AddMode => CreateUser(s, v, entryId, at, outcome)
      case EditMode(u) => EditUser(s, u, v, entryId, at, outcome)
  }
}
