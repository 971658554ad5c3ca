/** What a command reaches, field by field: which services of a device, which sub-tasks, and when
    `GetSubTasks` fails. Nothing here is stated through the functions that compute it. */
module CommandTargets {
  import opened Values
  import opened Messages
  import opened Sorting
  import opened SubTasks

  /** A chain of content variables, each inside the one before. */
  ghost predicate IsChain(chain: seq<Variable>) {
    |chain| > 0 && forall k :: 0 <= k < |chain| - 1 ==> chain[k + 1] in chain[k].subs
  }

  /** The chain ends at a variable with the function of the command and aspects that match its aspects. */
  ghost predicate EndsServing(repo: Repository, command: Command, chain: seq<Variable>)
    requires |chain| > 0
  {
    var last := chain[|chain| - 1];
    last.functionId == command.functionId && repo.aspectsMatch(last.aspectIds, command.aspects)
  }

  ghost predicate ServesBelow(repo: Repository, command: Command, v: Variable) {
    exists chain :: IsChain(chain) && chain[0] == v && EndsServing(repo, command, chain)
  }

  lemma {:induction false} CriteriaChain(repo: Repository, command: Command, v: Variable) returns (chain: seq<Variable>)
    requires ContainsCriteria(repo, command, v)
    ensures IsChain(chain) && chain[0] == v && EndsServing(repo, command, chain)
    decreases v
  {
    if v.functionId == command.functionId && repo.aspectsMatch(v.aspectIds, command.aspects) {
      chain := [v];
    } else {
      var i :| 0 <= i < |v.subs| && ContainsCriteria(repo, command, v.subs[i]);
      var below := CriteriaChain(repo, command, v.subs[i]);
      chain := [v] + below;
      assert below[0] in v.subs;
    }
  }

  lemma {:induction false} ChainServes(repo: Repository, command: Command, v: Variable, chain: seq<Variable>)
    requires IsChain(chain) && chain[0] == v && EndsServing(repo, command, chain)
    ensures ContainsCriteria(repo, command, v)
    decreases |chain|
  {
    if |chain| > 1 {
      var below := chain[1..];
      assert chain[1] in v.subs;
      forall k | 0 <= k < |below| - 1 ensures below[k + 1] in below[k].subs {
        assert chain[k + 2] in chain[k + 1].subs;
      }
      ChainServes(repo, command, chain[1], below);
      var i :| 0 <= i < |v.subs| && v.subs[i] == chain[1];
      assert ContainsCriteria(repo, command, v.subs[i]);
    }
  }

  lemma CriteriaIff(repo: Repository, command: Command, v: Variable)
    ensures ContainsCriteria(repo, command, v) <==> ServesBelow(repo, command, v)
  {
    if ContainsCriteria(repo, command, v) { var chain := CriteriaChain(repo, command, v); }
    if ServesBelow(repo, command, v) {
      var chain :| IsChain(chain) && chain[0] == v && EndsServing(repo, command, chain);
      ChainServes(repo, command, v, chain);
    }
  }

  /** A measuring command reaches a service through its outputs, and no event service if events are filtered;
      any other command through its inputs. */
  ghost predicate Reaches(repo: Repository, command: Command, s: Service) {
    if MEASURING_FUNCTION_PREFIX <= command.functionId then
      && !(repo.filterEvents && s.interaction == EVENT)
      && exists v :: v in s.outputs && ServesBelow(repo, command, v)
    else
      exists v :: v in s.inputs && ServesBelow(repo, command, v)
  }

  lemma MatchesIff(repo: Repository, command: Command, s: Service)
    ensures Matches(repo, command, s) <==> Reaches(repo, command, s)
  {
    var contents := if MEASURING_FUNCTION_PREFIX <= command.functionId then s.outputs else s.inputs;
    SomeServesIff(repo, command, contents);
    assert IsMeasuring(command.functionId) <==> MEASURING_FUNCTION_PREFIX <= command.functionId;
    if Matches(repo, command, s) {
      var i :| 0 <= i < |contents| && ContainsCriteria(repo, command, contents[i]);
    }
    if Reaches(repo, command, s) {
      var i :| 0 <= i < |contents| && ContainsCriteria(repo, command, contents[i]);
      assert Matches(repo, command, s);
    }
  }

  lemma SomeServesIff(repo: Repository, command: Command, contents: seq<Variable>)
    ensures (exists i :: 0 <= i < |contents| && ContainsCriteria(repo, command, contents[i]))
       <==> exists v :: v in contents && ServesBelow(repo, command, v)
  {
    if i :| 0 <= i < |contents| && ContainsCriteria(repo, command, contents[i]) {
      CriteriaIff(repo, command, contents[i]);
      assert contents[i] in contents;
    }
    if v :| v in contents && ServesBelow(repo, command, v) {
      CriteriaIff(repo, command, v);
      var i :| 0 <= i < |contents| && contents[i] == v;
      assert ContainsCriteria(repo, command, contents[i]);
    }
  }

  /** The service is reached, and no later one with its id is. */
  ghost predicate LastReached(repo: Repository, command: Command, services: seq<Service>, i: nat)
    requires i < |services|
  {
    && Reaches(repo, command, services[i])
    && forall j :: i < j < |services| && services[j].id == services[i].id ==> !Reaches(repo, command, services[j])
  }

  ghost predicate IsLastReached(repo: Repository, command: Command, services: seq<Service>, x: Service) {
    exists i :: 0 <= i < |services| && services[i] == x && LastReached(repo, command, services, i)
  }

  lemma LastReachedBefore(repo: Repository, command: Command, services: seq<Service>, i: nat)
    requires i < |services| - 1
    ensures var n := |services| - 1;
            LastReached(repo, command, services, i) <==>
              && LastReached(repo, command, services[..n], i)
              && !(services[n].id == services[i].id && Reaches(repo, command, services[n]))
  {
    var init := services[..|services| - 1];
    assert forall j :: i <= j < |init| ==> init[j] == services[j];
  }

  /** One service more: it takes the place of an earlier one with its id, if it is reached. */
  lemma OneServiceMore(repo: Repository, command: Command, services: seq<Service>, x: Service)
    requires |services| > 0
    ensures var n := |services| - 1;
            IsLastReached(repo, command, services, x) <==>
              if Reaches(repo, command, services[n]) && services[n].id == x.id then x == services[n]
              else IsLastReached(repo, command, services[..n], x)
  {
    var n := |services| - 1;
    var init := services[..n];
    var reached := Reaches(repo, command, services[n]);
    assert LastReached(repo, command, services, n) <==> reached;
    if IsLastReached(repo, command, services, x) {
      var i :| 0 <= i < |services| && services[i] == x && LastReached(repo, command, services, i);
      if i < n {
        LastReachedBefore(repo, command, services, i);
        assert init[i] == x && LastReached(repo, command, init, i);
      }
    }
    if !(reached && services[n].id == x.id) && IsLastReached(repo, command, init, x) {
      var i :| 0 <= i < n && init[i] == x && LastReached(repo, command, init, i);
      LastReachedBefore(repo, command, services, i);
      assert services[i] == x;
    }
  }

  lemma {:induction false} IndexIsLastReached(repo: Repository, command: Command, services: seq<Service>, x: Service)
    ensures var index := ServiceIndex(repo, command, services);
            (x.id in index && index[x.id] == x) <==> IsLastReached(repo, command, services, x)
  {
    if |services| > 0 {
      var n := |services| - 1;
      IndexIsLastReached(repo, command, services[..n], x);
      MatchesIff(repo, command, services[n]);
      OneServiceMore(repo, command, services, x);
    }
  }

  /** `getFilteredServices` yields, sorted by id, the last reached service of every id. */
  lemma FilteredIffReached(repo: Repository, command: Command, services: seq<Service>, x: Service)
    ensures StrictlySorted(FilteredServices(repo, command, services))
    ensures x in FilteredServices(repo, command, services) <==> IsLastReached(repo, command, services, x)
  {
    FilteredHolds(repo, command, services);
    IndexIsLastReached(repo, command, services, x);
  }

  /** The part of an id before the first '$'. */
  ghost predicate IsPurePart(pure: string, id: string) {
    pure <= id && '$' !in pure && (|pure| < |id| ==> id[|pure|] == '$')
  }

  lemma {:induction false} PureIdIsPure(id: string)
    ensures IsPurePart(PureId(id), id)
  {
    if id != "" && id[0] != '$' {
      PureIdIsPure(id[1..]);
      assert id == [id[0]] + id[1..];
    }
  }

  /** A command for one service of one device, or without a device. */
  predicate IsPlain(command: Command) {
    command.deviceGroupId == "" && (command.deviceId == "" || command.serviceId != "")
  }

  /** The command with another device and service, and nothing else changed. */
  ghost predicate Retargeted(was: Command, now: Command, deviceId: string, serviceId: string) {
    && now.version == was.version && now.functionId == was.functionId && now.aspects == was.aspects
    && now.deviceGroupId == was.deviceGroupId && now.retries == was.retries
    && IsPurePart(now.deviceId, deviceId) && now.serviceId == serviceId
  }

  /** A plain command is its own only sub-task, under the id of the task itself. */
  lemma PlainSubTask(repo: Repository, command: Command, task: Task)
    requires IsPlain(command)
    ensures SubTasksOf(repo, command, task).Ok? && |SubTasksOf(repo, command, task).value| == 1
    ensures var e := SubTasksOf(repo, command, task).value[0];
            e.task == task && Retargeted(command, e.command, command.deviceId, command.serviceId)
  {
    PureIdIsPure(command.deviceId);
  }

  /** The devices of a command that is not plain. */
  function Devices(repo: Repository, command: Command): seq<string>
    requires command.deviceGroupId != "" ==> command.deviceGroupId in repo.groups
  {
    if command.deviceGroupId != "" then repo.groups[command.deviceGroupId] else [command.deviceId]
  }

  predicate Readable(repo: Repository, deviceId: string) {
    deviceId in repo.devices && repo.devices[deviceId] in repo.deviceTypes
  }

  /** `GetSubTasks` fails exactly if the command is not plain and there is no token, the group is unknown, or
      some device or its type is. */
  lemma FailsIff(repo: Repository, command: Command, task: Task)
    ensures SubTasksOf(repo, command, task).Err? <==>
      && !IsPlain(command)
      && (task.tenantId !in repo.tokens || (command.deviceGroupId != "" && command.deviceGroupId !in repo.groups)
          || exists d :: d in Devices(repo, command) && !Readable(repo, d))
  {
    if !IsPlain(command) && (command.deviceGroupId != "" ==> command.deviceGroupId in repo.groups) {
      GroupSubTasksAreThePairs(repo, command, task, Devices(repo, command));
      forall d ensures DeviceServices(repo, command, d).Ok? <==> Readable(repo, d) {}
    }
  }

  /** Element e is for the j-th service the command reaches on the i-th device: its id is `task_i_j`, its
      command names both, and nothing else of task and command has changed. */
  ghost predicate IsTarget(repo: Repository, command: Command, task: Task, devices: seq<string>, e: Element, i: nat,
                           j: nat) {
    && i < |devices| && Readable(repo, devices[i])
    && var services := FilteredServices(repo, command, repo.deviceTypes[repo.devices[devices[i]]]);
       && j < |services|
       && e.task == task.(id := SubTaskId(task.id, i, j))
       && Retargeted(command, e.command, devices[i], services[j].id)
  }

  lemma SubTaskIsTarget(repo: Repository, command: Command, task: Task, devices: seq<string>, r: Element, i: nat,
                        j: nat)
    requires IsSubTask(repo, command, task, devices, r, i, j)
    ensures IsTarget(repo, command, task, devices, WithPureDevice(r), i, j)
  {
    PureIdIsPure(devices[i]);
  }

  lemma TargetIsSubTask(repo: Repository, command: Command, task: Task, devices: seq<string>, e: Element, i: nat,
                        j: nat) returns (r: Element)
    requires IsTarget(repo, command, task, devices, e, i, j)
    ensures IsSubTask(repo, command, task, devices, r, i, j) && WithPureDevice(r) == e
  {
    var services := FilteredServices(repo, command, repo.deviceTypes[repo.devices[devices[i]]]);
    r := SubTask(command, task, devices[i], services[j].id, i, j);
    PureIdIsPure(devices[i]);
    OnePurePart(PureId(devices[i]), e.command.deviceId, devices[i]);
  }

  /** The sub-tasks of a group, or of a device without a service, are exactly the pairs of a device and a
      service the command reaches on it. */
  lemma TargetsAreThePairs(repo: Repository, command: Command, task: Task, e: Element)
    requires !IsPlain(command) && SubTasksOf(repo, command, task).Ok?
    ensures command.deviceGroupId != "" ==> command.deviceGroupId in repo.groups
    ensures e in SubTasksOf(repo, command, task).value <==>
      exists i: nat, j: nat :: IsTarget(repo, command, task, Devices(repo, command), e, i, j)
  {
    var devices := Devices(repo, command);
    var raw := GroupSubTasks(repo, command, task, devices).value;
    var elements := SubTasksOf(repo, command, task).value;
    GroupSubTasksAreThePairs(repo, command, task, devices);
    if e in elements {
      var k :| 0 <= k < |elements| && elements[k] == e;
      assert raw[k] in raw;
      var i: nat, j: nat :| IsSubTask(repo, command, task, devices, raw[k], i, j);
      SubTaskIsTarget(repo, command, task, devices, raw[k], i, j);
    }
    if i: nat, j: nat :| IsTarget(repo, command, task, devices, e, i, j) {
      var r := TargetIsSubTask(repo, command, task, devices, e, i, j);
      assert r in raw;
      var k :| 0 <= k < |raw| && raw[k] == r;
      assert elements[k] == e;
    }
  }

  lemma OnePurePart(p: string, q: string, id: string)
    requires IsPurePart(p, id) && IsPurePart(q, id)
    ensures p == q
  {
    assert p == id[..|p|] && q == id[..|q|];
  }
}
