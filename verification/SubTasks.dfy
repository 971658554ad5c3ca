/** Sub-tasks of a task: `GetSubTasks` and `getFilteredServices` of lib/devicegroups/devicegroups.go. */
module SubTasks {
  import opened Values
  import opened Messages
  import opened Sorting
  import opened Decimal

  const MEASURING_FUNCTION_PREFIX := "urn:infai:ses:measuring-function:"

  datatype Interaction = EVENT | REQUEST | EVENT_AND_REQUEST

  datatype Variable = Variable(functionId: string, aspectIds: seq<string>, subs: seq<Variable>)

  datatype Service = Service(id: string, interaction: Interaction, inputs: seq<Variable>, outputs: seq<Variable>)

  /** The device repository at the time of a call. `aspectsMatch` stands for `AspectMatchLevel(..) >= 0`. */
  datatype Repository = Repository(
    tokens: set<string>,                        // tenants with a token
    groups: map<string, seq<string>>,           // device ids of a group
    devices: map<string, string>,               // device type of a device
    deviceTypes: map<string, seq<Service>>,
    aspectsMatch: (seq<string>, seq<string>) -> bool,
    filterEvents: bool)

  predicate IsMeasuring(functionId: string) {
    MEASURING_FUNCTION_PREFIX <= functionId
  }

  /** `contentVariableContainsCriteria`. */
  predicate ContainsCriteria(repo: Repository, command: Command, v: Variable)
    decreases v
  {
    || (v.functionId == command.functionId && repo.aspectsMatch(v.aspectIds, command.aspects))
    || exists i :: 0 <= i < |v.subs| && ContainsCriteria(repo, command, v.subs[i])
  }

  predicate Matches(repo: Repository, command: Command, s: Service) {
    var contents := if IsMeasuring(command.functionId) then s.outputs else s.inputs;
    && (exists i :: 0 <= i < |contents| && ContainsCriteria(repo, command, contents[i]))
    && !(repo.filterEvents && IsMeasuring(command.functionId) && s.interaction == EVENT)
  }

  /** The last matching service of every id. */
  function ServiceIndex(repo: Repository, command: Command, services: seq<Service>): map<string, Service> {
    if |services| == 0 then map[]
    else
      var last := services[|services| - 1];
      var index := ServiceIndex(repo, command, services[..|services| - 1]);
      if Matches(repo, command, last) then index[last.id := last] else index
  }

  lemma {:induction false} ServiceIndexById(repo: Repository, command: Command, services: seq<Service>)
    ensures forall id :: id in ServiceIndex(repo, command, services) ==>
      ServiceIndex(repo, command, services)[id].id == id
    ensures forall id :: id in ServiceIndex(repo, command, services) <==>
      exists i :: 0 <= i < |services| && services[i].id == id && Matches(repo, command, services[i])
  {
    if |services| > 0 {
      var n := |services| - 1;
      ServiceIndexById(repo, command, services[..n]);
      forall id | exists i :: 0 <= i < |services| && services[i].id == id && Matches(repo, command, services[i])
        ensures id in ServiceIndex(repo, command, services)
      {
        var i :| 0 <= i < |services| && services[i].id == id && Matches(repo, command, services[i]);
        if i < n { assert services[..n][i] == services[i]; }
      }
    }
  }

  /** Insert into a list sorted by id. */
  function Insert(s: Service, sorted: seq<Service>): seq<Service> {
    if |sorted| == 0 then [s]
    else if sorted[0].id == s.id then [s] + sorted[1..]
    else if StringLe(s.id, sorted[0].id) then [s] + sorted
    else [sorted[0]] + Insert(s, sorted[1..])
  }

  /** The services a command reaches, sorted by id: the simple form of `getFilteredServices`. */
  function FilteredServices(repo: Repository, command: Command, services: seq<Service>): seq<Service> {
    if |services| == 0 then []
    else
      var last := services[|services| - 1];
      var rest := FilteredServices(repo, command, services[..|services| - 1]);
      if Matches(repo, command, last) then Insert(last, rest) else rest
  }

  /** Strictly sorted by id. */
  ghost predicate StrictlySorted(s: seq<Service>) {
    forall i, j :: 0 <= i < j < |s| ==> StringLe(s[i].id, s[j].id) && s[i].id != s[j].id
  }

  /** The list holds the services of the index and no others. */
  ghost predicate Holds(s: seq<Service>, index: map<string, Service>) {
    && (forall x :: x in s ==> x.id in index && index[x.id] == x)
    && (forall id :: id in index ==> index[id] in s)
  }

  predicate Before(a: Service, b: Service) {
    StringLe(a.id, b.id) && a.id != b.id
  }

  lemma {:induction false} InsertElements(s: Service, sorted: seq<Service>)
    requires StrictlySorted(sorted)
    ensures forall x :: x in Insert(s, sorted) <==> x == s || (x in sorted && x.id != s.id)
  {
    if |sorted| > 0 {
      var head, tail := sorted[0], sorted[1..];
      assert sorted == [head] + tail;
      forall x | x in tail ensures Before(head, x) {
        var i :| 0 <= i < |tail| && tail[i] == x;
        assert sorted[i + 1] == x;
      }
      if StringLe(s.id, head.id) {
        forall x | x in tail ensures x.id != s.id { StringLeTotal(s.id, head.id); StringLeTotal(head.id, x.id); }
      } else {
        InsertElements(s, tail);
      }
    }
  }

  lemma PrependSorts(head: Service, tail: seq<Service>)
    requires StrictlySorted(tail) && forall j :: 0 <= j < |tail| ==> Before(head, tail[j])
    ensures StrictlySorted([head] + tail)
  {
    var r := [head] + tail;
    forall i, j | 0 <= i < j < |r| ensures StringLe(r[i].id, r[j].id) && r[i].id != r[j].id {
      assert r[j] == tail[j - 1] && Before(head, tail[j - 1]);
      if i > 0 { assert r[i] == tail[i - 1]; }
    }
  }

  lemma {:induction false} InsertSorts(s: Service, sorted: seq<Service>)
    requires StrictlySorted(sorted)
    ensures StrictlySorted(Insert(s, sorted))
  {
    if |sorted| > 0 {
      var head, tail := sorted[0], sorted[1..];
      assert sorted == [head] + tail;
      StringLeTotal(s.id, head.id);
      if head.id == s.id {
        forall j | 0 <= j < |tail| ensures Before(s, tail[j]) { assert sorted[j + 1] == tail[j]; }
        PrependSorts(s, tail);
      } else if StringLe(s.id, head.id) {
        forall j | 0 <= j < |sorted| ensures Before(s, sorted[j]) {
          if j > 0 {
            StringLeTransitive(s.id, head.id, sorted[j].id);
            StringLeTotal(head.id, sorted[j].id);
          }
        }
        PrependSorts(s, sorted);
      } else {
        InsertSorts(s, tail);
        InsertElements(s, tail);
        var r := Insert(s, tail);
        forall j | 0 <= j < |r| ensures Before(head, r[j]) {
          if r[j] != s {
            var i :| 0 <= i < |tail| && tail[i] == r[j];
            assert sorted[i + 1] == r[j];
          }
        }
        PrependSorts(head, r);
      }
    }
  }

  lemma {:induction false} FilteredHolds(repo: Repository, command: Command, services: seq<Service>)
    ensures StrictlySorted(FilteredServices(repo, command, services))
    ensures Holds(FilteredServices(repo, command, services), ServiceIndex(repo, command, services))
  {
    if |services| > 0 {
      var n := |services| - 1;
      FilteredHolds(repo, command, services[..n]);
      ServiceIndexById(repo, command, services[..n]);
      InsertSorts(services[n], FilteredServices(repo, command, services[..n]));
      InsertElements(services[n], FilteredServices(repo, command, services[..n]));
    }
  }

  /** A list of services in strict order of id is determined by its members. */
  lemma {:induction false} StrictOrderIsUnique(a: seq<Service>, b: seq<Service>)
    requires StrictlySorted(a) && StrictlySorted(b) && forall x :: x in a <==> x in b
    ensures a == b
  {
    assert |a| > 0 ==> a[0] in b;
    assert |b| > 0 ==> b[0] in a;
    if |a| > 0 && |b| > 0 {
      assert a[0] in b && b[0] in a;
      assert a[0] == b[0] by { StringLeTotal(a[0].id, b[0].id); }
      forall x ensures x in a[1..] <==> x in b[1..] {
        assert x in a <==> x == a[0] || x in a[1..];
        assert x in b <==> x == b[0] || x in b[1..];
        if x == a[0] {
          assert x !in a[1..] && x !in b[1..];
        }
      }
      StrictOrderIsUnique(a[1..], b[1..]);
      assert a == [a[0]] + a[1..] && b == [b[0]] + b[1..];
    }
  }

  /** Whatever order the index map is visited in, the list is the same. */
  lemma FilteredIsUnique(repo: Repository, command: Command, services: seq<Service>, list: seq<Service>)
    requires StrictlySorted(list) && Holds(list, ServiceIndex(repo, command, services))
    ensures list == FilteredServices(repo, command, services)
  {
    FilteredHolds(repo, command, services);
    StrictOrderIsUnique(list, FilteredServices(repo, command, services));
  }

  method GetFilteredServices(repo: Repository, command: Command, services: seq<Service>) returns (result: seq<Service>)
    ensures result == FilteredServices(repo, command, services)
  {
    var index: map<string, Service> := map[];
    for i := 0 to |services|
      invariant index == ServiceIndex(repo, command, services[..i])
    {
      assert services[..i + 1][..i] == services[..i];
      if Matches(repo, command, services[i]) {
        index := index[services[i].id := services[i]];
      }
    }
    assert services[..|services|] == services;
    ServiceIndexById(repo, command, services);
    var list := ListValues(index);
    result := SortById(list);
    FilteredIsUnique(repo, command, services, result);
  }

  /** The values of the index in the order of a Go map. */
  method ListValues(index: map<string, Service>) returns (list: seq<Service>)
    requires forall id :: id in index ==> index[id].id == id
    ensures Holds(list, index) && forall i, j :: 0 <= i < j < |list| ==> list[i].id != list[j].id
  {
    list := [];
    var ids := index.Keys;
    while ids != {}
      invariant ids <= index.Keys
      invariant forall x :: x in list <==> x.id in index.Keys - ids && index[x.id] == x
      invariant forall i, j :: 0 <= i < j < |list| ==> list[i].id != list[j].id
    {
      var id :| id in ids;
      forall i | 0 <= i < |list| ensures list[i].id != id { assert list[i] in list; }
      ids := ids - {id};
      list := list + [index[id]];
    }
  }

  method SortById(list: seq<Service>) returns (sorted: seq<Service>)
    requires forall i, j :: 0 <= i < j < |list| ==> list[i].id != list[j].id
    ensures StrictlySorted(sorted) && forall x :: x in sorted <==> x in list
  {
    var le := (a: Service, b: Service) => StringLe(a.id, b.id);
    forall a: Service, b: Service ensures le(a, b) || le(b, a) { StringLeTotal(a.id, b.id); }
    forall a: Service, b: Service, c: Service | le(a, b) && le(b, c)
      ensures le(a, c)
    {
      StringLeTransitive(a.id, b.id, c.id);
    }
    sorted := SortSlice(list, le);
    SameMultiset(sorted, list);
    DistinctStays(list, sorted);
    assert forall i, j :: 0 <= i < j < |sorted| ==> le(sorted[i], sorted[j]);
  }

  /** A permutation of a list with distinct ids has distinct ids. */
  lemma DistinctStays(list: seq<Service>, other: seq<Service>)
    requires multiset(list) == multiset(other) && forall i, j :: 0 <= i < j < |list| ==> list[i].id != list[j].id
    ensures forall i, j :: 0 <= i < j < |other| ==> other[i].id != other[j].id
  {
    SameMultiset(list, other);
    forall i: nat, j: nat | i < j < |other| ensures other[i].id != other[j].id {
      if other[i] == other[j] {
        CountedTwice(other, i, j);
        var k: nat :| k < |list| && list[k] == other[i];
        CountedOnce(list, k);
      } else {
        var k: nat :| k < |list| && list[k] == other[i];
        assert other[j] in list;
        var l: nat :| l < |list| && list[l] == other[j];
      }
    }
  }

  lemma CountedTwice(s: seq<Service>, i: nat, j: nat)
    requires i < j < |s| && s[i] == s[j]
    ensures multiset(s)[s[i]] >= 2
  {
    assert s == s[..j] + [s[j]] + s[j + 1..];
    assert multiset(s) == multiset(s[..j]) + multiset{s[j]} + multiset(s[j + 1..]);
    assert s[i] in s[..j];
  }

  lemma CountedOnce(s: seq<Service>, k: nat)
    requires k < |s| && forall i, j :: 0 <= i < j < |s| ==> s[i].id != s[j].id
    ensures multiset(s)[s[k]] == 1
  {
    assert s == s[..k] + [s[k]] + s[k + 1..];
    assert multiset(s) == multiset(s[..k]) + multiset{s[k]} + multiset(s[k + 1..]);
    assert s[k] !in s[..k] && s[k] !in s[k + 1..];
  }

  /** The id of sub-task j of the i-th device. */
  function SubTaskId(taskId: string, i: nat, j: nat): string {
    taskId + "_" + Digits(i) + "_" + Digits(j)
  }

  /** The id of the Camunda task a task or sub-task id belongs to: all before the first underscore. */
  function Owner(id: string): string {
    if id == "" || id[0] == '_' then "" else [id[0]] + Owner(id[1..])
  }

  lemma {:induction false} OwnerOf(taskId: string, rest: string)
    requires '_' !in taskId
    ensures Owner(taskId + "_" + rest) == taskId && Owner(taskId) == taskId
  {
    if taskId != "" {
      OwnerOf(taskId[1..], rest);
      assert (taskId + "_" + rest)[1..] == taskId[1..] + "_" + rest;
      assert [taskId[0]] + taskId[1..] == taskId;
    }
  }

  lemma SubTaskOwner(taskId: string, i: nat, j: nat)
    requires '_' !in taskId
    ensures Owner(SubTaskId(taskId, i, j)) == taskId
  {
    OwnerOf(taskId, Digits(i) + "_" + Digits(j));
    assert SubTaskId(taskId, i, j) == taskId + "_" + (Digits(i) + "_" + Digits(j));
  }

  lemma TailIsInjective(i: nat, j: nat, i': nat, j': nat)
    requires Digits(i) + "_" + Digits(j) == Digits(i') + "_" + Digits(j')
    ensures i == i' && j == j'
  {
    ParsePrinted(i);
    ParsePrinted(j);
    ParsePrinted(i');
    ParsePrinted(j');
    var rest, rest' := Digits(i) + "_" + Digits(j), Digits(i') + "_" + Digits(j');
    OwnerOf(Digits(i), Digits(j));
    OwnerOf(Digits(i'), Digits(j'));
    assert rest[|Digits(i)| + 1..] == Digits(j) && rest'[|Digits(i')| + 1..] == Digits(j');
  }

  /** Sub-task ids of underscore-free task ids agree only for one task, device and service. */
  lemma SubTaskIdIsInjective(t: string, i: nat, j: nat, t': string, i': nat, j': nat)
    requires '_' !in t && '_' !in t' && SubTaskId(t, i, j) == SubTaskId(t', i', j')
    ensures t == t' && i == i' && j == j'
  {
    SubTaskOwner(t, i, j);
    SubTaskOwner(t', i', j');
    var rest, rest' := Digits(i) + "_" + Digits(j), Digits(i') + "_" + Digits(j');
    assert SubTaskId(t, i, j)[|t| + 1..] == rest && SubTaskId(t', i', j')[|t'| + 1..] == rest';
    TailIsInjective(i, j, i', j');
  }

  /** The pure id in front of a modifier parameter. */
  function PureId(id: string): string {
    if id == "" || id[0] == '$' then "" else [id[0]] + PureId(id[1..])
  }

  function WithPureDevice(e: Element): Element {
    e.(command := e.command.(deviceId := PureId(e.command.deviceId)))
  }

  /** Sub-task (i, j) of a task. */
  function SubTask(command: Command, task: Task, deviceId: string, serviceId: string, i: nat, j: nat): Element {
    Element(command.(deviceId := deviceId, serviceId := serviceId), task.(id := SubTaskId(task.id, i, j)))
  }

  /** Sub-tasks of one device: one for every service the command reaches. */
  function DeviceSubTasks(command: Command, task: Task, deviceId: string, i: nat,
                          services: seq<Service>): seq<Element> {
    seq(|services|, j requires 0 <= j < |services| => SubTask(command, task, deviceId, services[j].id, i, j))
  }

  /** The services of a device the command reaches. */
  function DeviceServices(repo: Repository, command: Command, deviceId: string): Result<seq<Service>> {
    if deviceId !in repo.devices then Err("device not found")
    else if repo.devices[deviceId] !in repo.deviceTypes then Err("device-type not found")
    else Ok(FilteredServices(repo, command, repo.deviceTypes[repo.devices[deviceId]]))
  }

  /** Sub-tasks of the devices of a group, up to the n-th. */
  function GroupSubTasks(repo: Repository, command: Command, task: Task, devices: seq<string>): Result<seq<Element>> {
    if |devices| == 0 then Ok([])
    else
      var n := |devices| - 1;
      match GroupSubTasks(repo, command, task, devices[..n])
      case Err(e) => Err(e)
      case Ok(before) =>
        match DeviceServices(repo, command, devices[n])
        case Err(e) => Err(e)
        case Ok(services) => Ok(before + DeviceSubTasks(command, task, devices[n], n, services))
  }

  /** `getSubTasks`: a group, a device without a service, or the task itself. */
  function RawSubTasks(repo: Repository, command: Command, task: Task): Result<seq<Element>> {
    if command.deviceGroupId != "" then
      if task.tenantId !in repo.tokens then Err("no token")
      else if command.deviceGroupId !in repo.groups then Err("device-group not found")
      else GroupSubTasks(repo, command, task, repo.groups[command.deviceGroupId])
    else if command.deviceId != "" && command.serviceId == "" then
      if task.tenantId !in repo.tokens then Err("no token")
      else GroupSubTasks(repo, command, task, [command.deviceId])
    else Ok([Element(command, task)])
  }

  function SubTasksOf(repo: Repository, command: Command, task: Task): Result<seq<Element>> {
    match RawSubTasks(repo, command, task)
    case Err(e) => Err(e)
    case Ok(elements) => Ok(seq(|elements|, k requires 0 <= k < |elements| => WithPureDevice(elements[k])))
  }

  /** Ids of a family: all owned by the task, no two the same. */
  ghost predicate FamilyIds(taskId: string, children: seq<Element>) {
    && (forall k :: 0 <= k < |children| ==> Owner(children[k].task.id) == taskId)
    && (forall k, l :: 0 <= k < l < |children| ==> children[k].task.id != children[l].task.id)
  }

  /** The id of a sub-task of one of the first n devices. */
  ghost predicate IsSubTaskId(taskId: string, id: string, n: nat) {
    exists i: nat, j: nat :: i < n && id == SubTaskId(taskId, i, j)
  }

  ghost predicate IdsBelow(taskId: string, children: seq<Element>, n: nat) {
    forall k :: 0 <= k < |children| ==> IsSubTaskId(taskId, children[k].task.id, n)
  }

  /** The sub-tasks of one more device. */
  lemma NextDeviceIds(taskId: string, before: seq<Element>, next: seq<Element>, n: nat)
    requires '_' !in taskId && FamilyIds(taskId, before) && IdsBelow(taskId, before, n)
    requires forall l :: 0 <= l < |next| ==> next[l].task.id == SubTaskId(taskId, n, l)
    ensures FamilyIds(taskId, before + next) && IdsBelow(taskId, before + next, n + 1)
  {
    forall l | 0 <= l < |next| ensures Owner(next[l].task.id) == taskId { SubTaskOwner(taskId, n, l); }
    forall k | 0 <= k < |before + next| ensures IsSubTaskId(taskId, (before + next)[k].task.id, n + 1) {
      if k < |before| {
        assert IsSubTaskId(taskId, before[k].task.id, n);
      } else {
        assert next[k - |before|].task.id == SubTaskId(taskId, n, k - |before|);
      }
    }
    forall k, l | 0 <= k < |before| && 0 <= l < |next| ensures before[k].task.id != next[l].task.id {
      assert IsSubTaskId(taskId, before[k].task.id, n);
      var i: nat, j: nat :| i < n && before[k].task.id == SubTaskId(taskId, i, j);
      if before[k].task.id == next[l].task.id { SubTaskIdIsInjective(taskId, i, j, taskId, n, l); }
    }
    forall k, l | 0 <= k < l < |next| ensures next[k].task.id != next[l].task.id {
      if next[k].task.id == next[l].task.id { SubTaskIdIsInjective(taskId, n, k, taskId, n, l); }
    }
  }

  lemma {:induction false} GroupSubTaskIds(repo: Repository, command: Command, task: Task, devices: seq<string>)
    requires '_' !in task.id && GroupSubTasks(repo, command, task, devices).Ok?
    ensures FamilyIds(task.id, GroupSubTasks(repo, command, task, devices).value)
    ensures IdsBelow(task.id, GroupSubTasks(repo, command, task, devices).value, |devices|)
  {
    if |devices| > 0 {
      var n := |devices| - 1;
      GroupSubTaskIds(repo, command, task, devices[..n]);
      var before := GroupSubTasks(repo, command, task, devices[..n]).value;
      var next := DeviceSubTasks(command, task, devices[n], n, DeviceServices(repo, command, devices[n]).value);
      NextDeviceIds(task.id, before, next, n);
      assert GroupSubTasks(repo, command, task, devices) == Ok(before + next);
    }
  }

  /** Element e is sub-task (i, j): the j-th service of the i-th device. */
  ghost predicate IsSubTask(repo: Repository, command: Command, task: Task, devices: seq<string>, e: Element, i: nat,
                            j: nat) {
    && i < |devices| && DeviceServices(repo, command, devices[i]).Ok?
    && var services := DeviceServices(repo, command, devices[i]).value;
       && j < |services|
       && e == SubTask(command, task, devices[i], services[j].id, i, j)
  }

  /** The sub-tasks of a group are exactly the pairs of a device and a service it offers the command;
      there are none at all exactly if some device cannot be read. */
  lemma {:induction false} GroupSubTasksAreThePairs(repo: Repository, command: Command, task: Task,
                                                    devices: seq<string>)
    ensures GroupSubTasks(repo, command, task, devices).Ok?
       <==> forall d :: d in devices ==> DeviceServices(repo, command, d).Ok?
    ensures GroupSubTasks(repo, command, task, devices).Ok? ==>
      forall e :: e in GroupSubTasks(repo, command, task, devices).value
         <==> exists i: nat, j: nat :: IsSubTask(repo, command, task, devices, e, i, j)
  {
    if |devices| > 0 {
      var n := |devices| - 1;
      var init := devices[..n];
      GroupSubTasksAreThePairs(repo, command, task, init);
      assert devices == init + [devices[n]];
      if GroupSubTasks(repo, command, task, devices).Ok? {
        var before := GroupSubTasks(repo, command, task, init).value;
        var services := DeviceServices(repo, command, devices[n]).value;
        var next := DeviceSubTasks(command, task, devices[n], n, services);
        forall e | e in before + next
          ensures exists i: nat, j: nat :: IsSubTask(repo, command, task, devices, e, i, j)
        {
          if e in before {
            var i: nat, j: nat :| IsSubTask(repo, command, task, init, e, i, j);
            assert IsSubTask(repo, command, task, devices, e, i, j);
          } else {
            var j :| 0 <= j < |next| && next[j] == e;
            assert IsSubTask(repo, command, task, devices, e, n, j);
          }
        }
        forall e, i: nat, j: nat | IsSubTask(repo, command, task, devices, e, i, j) ensures e in before + next {
          if i < n { assert IsSubTask(repo, command, task, init, e, i, j); } else { assert next[j] == e; }
        }
      }
    }
  }

  /** For an underscore-free task id, sub-task ids are distinct and belong to the task. */
  lemma SubTaskIds(repo: Repository, command: Command, task: Task)
    requires '_' !in task.id && SubTasksOf(repo, command, task).Ok?
    ensures FamilyIds(task.id, SubTasksOf(repo, command, task).value)
  {
    OwnerOf(task.id, "");
    if command.deviceGroupId != "" {
      GroupSubTaskIds(repo, command, task, repo.groups[command.deviceGroupId]);
    } else if command.deviceId != "" && command.serviceId == "" {
      GroupSubTaskIds(repo, command, task, [command.deviceId]);
    }
  }

  method GetGroupSubTasks(repo: Repository, command: Command, task: Task, devices: seq<string>)
    returns (result: Result<seq<Element>>)
    ensures result == GroupSubTasks(repo, command, task, devices)
  {
    var elements: seq<Element> := [];
    for i := 0 to |devices|
      invariant GroupSubTasks(repo, command, task, devices[..i]) == Ok(elements)
    {
      assert devices[..i + 1][..i] == devices[..i];
      if devices[i] !in repo.devices {
        GroupFails(repo, command, task, devices, i);
        return Err("device not found");
      }
      if repo.devices[devices[i]] !in repo.deviceTypes {
        GroupFails(repo, command, task, devices, i);
        return Err("device-type not found");
      }
      var services := GetFilteredServices(repo, command, repo.deviceTypes[repo.devices[devices[i]]]);
      ghost var before := elements;
      for j := 0 to |services|
        invariant elements == before + DeviceSubTasks(command, task, devices[i], i, services)[..j]
      {
        elements := elements + [SubTask(command, task, devices[i], services[j].id, i, j)];
      }
      assert DeviceSubTasks(command, task, devices[i], i, services)[..|services|]
         == DeviceSubTasks(command, task, devices[i], i, services);
    }
    assert devices[..|devices|] == devices;
    return Ok(elements);
  }

  lemma {:induction false} GroupFails(repo: Repository, command: Command, task: Task, devices: seq<string>, i: nat)
    requires i < |devices| && GroupSubTasks(repo, command, task, devices[..i]).Ok?
    requires DeviceServices(repo, command, devices[i]).Err?
    ensures GroupSubTasks(repo, command, task, devices) == Err(DeviceServices(repo, command, devices[i]).message)
  {
    var n := |devices| - 1;
    if i < n {
      assert devices[..n][..i] == devices[..i];
      GroupFails(repo, command, task, devices[..n], i);
    }
  }

  method GetSubTasks(repo: Repository, command: Command, task: Task) returns (result: Result<seq<Element>>)
    ensures result == SubTasksOf(repo, command, task)
  {
    if command.deviceGroupId != "" || (command.deviceId != "" && command.serviceId == "") {
      if task.tenantId !in repo.tokens { return Err("no token"); }
      if command.deviceGroupId != "" {
        if command.deviceGroupId !in repo.groups { return Err("device-group not found"); }
        result := GetGroupSubTasks(repo, command, task, repo.groups[command.deviceGroupId]);
      } else {
        result := GetGroupSubTasks(repo, command, task, [command.deviceId]);
      }
      if result.Err? { return; }
    } else {
      result := Ok([Element(command, task)]);
    }
    var elements := result.value;
    for k := 0 to |elements|
      invariant |elements| == |result.value|
      invariant forall l :: 0 <= l < |elements| ==>
        elements[l] == if l < k then WithPureDevice(result.value[l]) else result.value[l]
    {
      elements := elements[k := WithPureDevice(elements[k])];
    }
    assert elements == SubTasksOf(repo, command, task).value;
    return Ok(elements);
  }
}
