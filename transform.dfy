/**
 * The in-memory rewrites that the static-pod runner applies, stated as
 * functions on values, with the properties promised of them.
 *
 * The kube-apiserver pod loses the first `kubelet-preferred-address-types=`
 * argument of every container and gets DNS policy ClusterFirstWithHostNet;
 * in every kube-controller-manager container the first `--controllers=`
 * argument that lacks `-nodelifecycle,` gets that token inserted right
 * after its first `=`.
 */
module Transform {
  import opened Wrappers
  import opened Strings
  import opened Pods

  const ADDRESS_TYPES_KEY: string := "kubelet-preferred-address-types="
  const CONTROLLERS_FLAG: string := "--controllers="
  const NODE_LIFECYCLE_TOKEN: string := "-nodelifecycle,"

  // ---------------------------------------------------------------------
  // Searching an argument list

  /** The index of the first element satisfying `p`, if any. */
  function FirstWhere<T>(s: seq<T>, p: T -> bool): (r: Option<nat>)
    ensures r.Some? ==> r.value < |s| && p(s[r.value])
    ensures r.Some? ==> forall j :: 0 <= j < r.value ==> !p(s[j])
    ensures r.None? <==> forall j :: 0 <= j < |s| ==> !p(s[j])
  {
    if s == [] then None
    else if p(s[0]) then Some(0)
    else
      match FirstWhere(s[1..], p)
      case None => None
      case Some(k) => Some(k + 1)
  }

  /** Some element satisfies `p`. */
  predicate Any<T>(s: seq<T>, p: T -> bool) {
    exists j :: 0 <= j < |s| && p(s[j])
  }

  /** No two distinct elements satisfy `p`. */
  predicate AtMostOne<T>(s: seq<T>, p: T -> bool) {
    forall i, j :: 0 <= i < |s| && 0 <= j < |s| && p(s[i]) && p(s[j]) ==> i == j
  }

  // ---------------------------------------------------------------------
  // kube-apiserver: removing --kubelet-preferred-address-types

  /** The argument mentions `kubelet-preferred-address-types=` anywhere. */
  predicate IsAddressTypesArg(arg: string)
    ensures IsAddressTypesArg(arg) <==> exists i: nat :: OccursAt(arg, ADDRESS_TYPES_KEY, i)
  {
    ContainsIffOccurs(arg, ADDRESS_TYPES_KEY);
    Contains(arg, ADDRESS_TYPES_KEY)
  }

  /** The command with its first address-types argument deleted. */
  function WithoutAddressTypes(cmd: seq<string>): (r: seq<string>)
    ensures |r| == if Any(cmd, IsAddressTypesArg) then |cmd| - 1 else |cmd|
    ensures !Any(cmd, IsAddressTypesArg) ==> r == cmd
    ensures Any(cmd, IsAddressTypesArg) ==>
      exists k :: 0 <= k < |cmd| && IsAddressTypesArg(cmd[k]) &&
        (forall j :: 0 <= j < k ==> !IsAddressTypesArg(cmd[j])) &&
        r == cmd[..k] + cmd[k + 1..]
  {
    match FirstWhere(cmd, IsAddressTypesArg)
    case None => cmd
    case Some(k) => cmd[..k] + cmd[k + 1..]
  }

  function StripContainer(c: Container): Container {
    c.(command := WithoutAddressTypes(c.command))
  }

  /** Every container loses its first address-types argument. */
  function StripAddressTypes(pod: Pod): (r: Pod)
    ensures |r.containers| == |pod.containers| && r.dnsPolicy == pod.dnsPolicy
    ensures forall i :: 0 <= i < |pod.containers| ==> r.containers[i] == StripContainer(pod.containers[i])
  {
    pod.(containers := seq(|pod.containers|, i requires 0 <= i < |pod.containers| => StripContainer(pod.containers[i])))
  }

  /** Some container has an address-types argument. */
  predicate HasAddressTypesArg(pod: Pod) {
    exists i :: 0 <= i < |pod.containers| && Any(pod.containers[i].command, IsAddressTypesArg)
  }

  // ---------------------------------------------------------------------
  // kube-apiserver: DNS policy

  /** The pod with DNS policy ClusterFirstWithHostNet. */
  function NormalizeDnsPolicy(pod: Pod): (r: Pod)
    ensures r.dnsPolicy == DNS_CLUSTER_FIRST_WITH_HOST_NET && r.containers == pod.containers
  {
    pod.(dnsPolicy := DNS_CLUSTER_FIRST_WITH_HOST_NET)
  }

  // ---------------------------------------------------------------------
  // kube-apiserver: both steps

  /** The kube-apiserver pod after the removal pass and the DNS step. */
  function KasPatched(pod: Pod): (r: Pod)
    ensures r.dnsPolicy == DNS_CLUSTER_FIRST_WITH_HOST_NET && |r.containers| == |pod.containers|
    ensures forall i :: 0 <= i < |pod.containers| ==>
      r.containers[i].command == WithoutAddressTypes(pod.containers[i].command)
  {
    NormalizeDnsPolicy(StripAddressTypes(pod))
  }

  /** The removal pass changes the pod exactly when some container has a match. */
  lemma StripChangesIffMatch(pod: Pod)
    ensures StripAddressTypes(pod) != pod
        <==> exists i :: 0 <= i < |pod.containers| && Any(pod.containers[i].command, IsAddressTypesArg)
  {
    var r := StripAddressTypes(pod);
    if i :| 0 <= i < |pod.containers| && Any(pod.containers[i].command, IsAddressTypesArg) {
      assert |r.containers[i].command| == |pod.containers[i].command| - 1;
    } else {
      assert r.containers == pod.containers;
    }
  }

  /**
   * The value `kasPodUpdated` ends with: set exactly when the kube-apiserver
   * pod was changed.
   */
  predicate KasUpdated(pod: Pod)
    ensures KasUpdated(pod) <==> KasPatched(pod) != pod
  {
    StripChangesIffMatch(pod);
    HasAddressTypesArg(pod) || pod.dnsPolicy != DNS_CLUSTER_FIRST_WITH_HOST_NET
  }

  // ---------------------------------------------------------------------
  // kube-controller-manager: disabling the node-lifecycle controller

  /**
   * The argument mentions `--controllers=` and does not mention
   * `-nodelifecycle,` anywhere.
   */
  predicate IsUntaggedControllersArg(arg: string)
    ensures IsUntaggedControllersArg(arg) ==> '=' in arg
  {
    if Contains(arg, CONTROLLERS_FLAG) then
      ContainsChars(arg, CONTROLLERS_FLAG, 13);
      !Contains(arg, NODE_LIFECYCLE_TOKEN)
    else false
  }

  /** `-nodelifecycle,` inserted right after the first `=` of `arg`. */
  function InsertNodeLifecycle(arg: string): (r: string)
    ensures |r| == |arg| + |NODE_LIFECYCLE_TOKEN|
    ensures Contains(r, NODE_LIFECYCLE_TOKEN)
  {
    var k := IndexOf(arg, '=') + 1;
    ContainsSpliced(arg[..k], NODE_LIFECYCLE_TOKEN, arg[k..]);
    arg[..k] + NODE_LIFECYCLE_TOKEN + arg[k..]
  }

  /** The command with its first untagged `--controllers=` argument tagged. */
  function TagFirstUntagged(cmd: seq<string>): (r: seq<string>)
    ensures |r| == |cmd|
  {
    match FirstWhere(cmd, IsUntaggedControllersArg)
    case None => cmd
    case Some(k) => cmd[k := InsertNodeLifecycle(cmd[k])]
  }

  function TagContainer(c: Container): Container {
    c.(command := TagFirstUntagged(c.command))
  }

  /** Every container has its first untagged `--controllers=` argument tagged. */
  function DisableNodeLifecycle(pod: Pod): (r: Pod)
    ensures |r.containers| == |pod.containers| && r.dnsPolicy == pod.dnsPolicy
    ensures forall i :: 0 <= i < |pod.containers| ==> r.containers[i] == TagContainer(pod.containers[i])
  {
    pod.(containers := seq(|pod.containers|, i requires 0 <= i < |pod.containers| => TagContainer(pod.containers[i])))
  }

  /** The tagging pass changes the pod exactly when some container has an untagged argument. */
  lemma TagChangesIffUntagged(pod: Pod)
    ensures DisableNodeLifecycle(pod) != pod
        <==> exists i :: 0 <= i < |pod.containers| && Any(pod.containers[i].command, IsUntaggedControllersArg)
  {
    var r := DisableNodeLifecycle(pod);
    if i :| 0 <= i < |pod.containers| && Any(pod.containers[i].command, IsUntaggedControllersArg) {
      TagFirstUntaggedChanges(pod.containers[i].command);
      assert r.containers[i] != pod.containers[i];
    } else {
      forall i | 0 <= i < |pod.containers| ensures r.containers[i] == pod.containers[i] {
        TagFirstUntaggedChanges(pod.containers[i].command);
      }
      assert r.containers == pod.containers;
    }
  }

  /**
   * The value `kcmPodUpdated` ends with: set exactly when the
   * kube-controller-manager pod was changed, so a pod whose `--controllers=`
   * arguments all carry the token is left as it is.
   */
  predicate HasUntaggedControllersArg(pod: Pod)
    ensures HasUntaggedControllersArg(pod) <==> DisableNodeLifecycle(pod) != pod
  {
    TagChangesIffUntagged(pod);
    exists i :: 0 <= i < |pod.containers| && Any(pod.containers[i].command, IsUntaggedControllersArg)
  }

  // ---------------------------------------------------------------------
  // Properties of the removal pass

  /** After the removal, no argument matches when at most one did before. */
  lemma StrippedHasNoMatch(cmd: seq<string>)
    requires AtMostOne(cmd, IsAddressTypesArg)
    ensures !Any(WithoutAddressTypes(cmd), IsAddressTypesArg)
  {
    var r := WithoutAddressTypes(cmd);
    if Any(cmd, IsAddressTypesArg) {
      var k :| 0 <= k < |cmd| && IsAddressTypesArg(cmd[k]) && r == cmd[..k] + cmd[k + 1..];
      forall j | 0 <= j < |r| ensures !IsAddressTypesArg(r[j]) {
        if j < k {
          assert r[j] == cmd[j];
        } else {
          assert r[j] == cmd[j + 1];
        }
      }
    }
  }

  /**
   * Removing a second time changes nothing exactly when the command had at
   * most one address-types argument: the loop removes only the first.
   */
  lemma WithoutAddressTypesIdempotentIff(cmd: seq<string>)
    ensures WithoutAddressTypes(WithoutAddressTypes(cmd)) == WithoutAddressTypes(cmd)
        <==> AtMostOne(cmd, IsAddressTypesArg)
  {
    var r := WithoutAddressTypes(cmd);
    if AtMostOne(cmd, IsAddressTypesArg) {
      StrippedHasNoMatch(cmd);
    } else {
      var i, j :| 0 <= i < |cmd| && 0 <= j < |cmd| && IsAddressTypesArg(cmd[i]) && IsAddressTypesArg(cmd[j]) && i != j;
      var k := FirstWhere(cmd, IsAddressTypesArg).value;
      assert r == cmd[..k] + cmd[k + 1..];
      var m := if i != k then i else j;
      var at := if m < k then m else m - 1;
      assert r[at] == cmd[m];
      assert Any(r, IsAddressTypesArg);
    }
  }

  // ---------------------------------------------------------------------
  // Properties of the controller tagging

  /** Tagging keeps the argument a `--controllers=` flag. */
  lemma InsertNodeLifecycleKeepsFlag(arg: string)
    requires Contains(arg, CONTROLLERS_FLAG)
    ensures Contains(InsertNodeLifecycle(arg), CONTROLLERS_FLAG)
  {
    ContainsIffOccurs(arg, CONTROLLERS_FLAG);
    var p: nat :| OccursAt(arg, CONTROLLERS_FLAG, p);
    var e := IndexOf(arg, '=');
    assert arg[p + 13] == arg[p..p + 14][13];
    IndexOfAtMost(arg, '=', p + 13);
    forall j | p <= j < p + 13 ensures arg[j] != '=' {
      assert arg[j] == arg[p..p + 14][j - p];
    }
    SpliceKeepsOccurrence(arg, NODE_LIFECYCLE_TOKEN, CONTROLLERS_FLAG, e + 1, p);
  }

  /**
   * On an argument that starts with `--controllers=`, the token lands at the
   * head of the controller list.
   */
  lemma InsertNodeLifecycleAfterFlag(arg: string)
    requires IsPrefix(CONTROLLERS_FLAG, arg)
    ensures InsertNodeLifecycle(arg) == CONTROLLERS_FLAG + NODE_LIFECYCLE_TOKEN + arg[|CONTROLLERS_FLAG|..]
  {
    forall j | 0 <= j < 13 ensures arg[j] != '=' {
      assert arg[j] == arg[..14][j] == CONTROLLERS_FLAG[j];
    }
    assert arg[13] == arg[..14][13];
    IndexOfUnique(arg, '=', 13);
  }

  /**
   * What tagging changes: only the first untagged `--controllers=` argument,
   * which gets the token; arguments that already carry the token never
   * change; the command changes exactly when some argument is untagged.
   */
  lemma TagFirstUntaggedChanges(cmd: seq<string>)
    ensures |TagFirstUntagged(cmd)| == |cmd|
    ensures forall j :: 0 <= j < |cmd| && TagFirstUntagged(cmd)[j] != cmd[j] ==>
      IsUntaggedControllersArg(cmd[j]) &&
      (forall i :: 0 <= i < j ==> !IsUntaggedControllersArg(cmd[i])) &&
      TagFirstUntagged(cmd)[j] == InsertNodeLifecycle(cmd[j])
    ensures forall j :: 0 <= j < |cmd| && Contains(cmd[j], NODE_LIFECYCLE_TOKEN) ==> TagFirstUntagged(cmd)[j] == cmd[j]
    ensures TagFirstUntagged(cmd) == cmd <==> !Any(cmd, IsUntaggedControllersArg)
  {
    var r := TagFirstUntagged(cmd);
    match FirstWhere(cmd, IsUntaggedControllersArg)
    case None =>
    case Some(k) =>
      assert |r[k]| != |cmd[k]|;
  }

  /** After tagging, no argument is untagged when at most one was before. */
  lemma TaggedHasNoUntagged(cmd: seq<string>)
    requires AtMostOne(cmd, IsUntaggedControllersArg)
    ensures !Any(TagFirstUntagged(cmd), IsUntaggedControllersArg)
  {
    var r := TagFirstUntagged(cmd);
    TagFirstUntaggedChanges(cmd);
    forall j | 0 <= j < |r| ensures !IsUntaggedControllersArg(r[j]) {
      if r[j] != cmd[j] {
        assert Contains(r[j], NODE_LIFECYCLE_TOKEN);
      }
    }
  }

  /**
   * Tagging a second time changes nothing exactly when the command had at
   * most one untagged `--controllers=` argument.
   */
  lemma TagFirstUntaggedIdempotentIff(cmd: seq<string>)
    ensures TagFirstUntagged(TagFirstUntagged(cmd)) == TagFirstUntagged(cmd)
        <==> AtMostOne(cmd, IsUntaggedControllersArg)
  {
    var r := TagFirstUntagged(cmd);
    TagFirstUntaggedChanges(r);
    if AtMostOne(cmd, IsUntaggedControllersArg) {
      TaggedHasNoUntagged(cmd);
    } else {
      TagFirstUntaggedChanges(cmd);
      var i, j :| 0 <= i < |cmd| && 0 <= j < |cmd| && IsUntaggedControllersArg(cmd[i]) && IsUntaggedControllersArg(cmd[j]) && i != j;
      var k := FirstWhere(cmd, IsUntaggedControllersArg).value;
      var m := if i != k then i else j;
      assert r[m] == cmd[m];
      assert Any(r, IsUntaggedControllersArg);
    }
  }

  // ---------------------------------------------------------------------
  // Pod-level properties

  /** The DNS step is idempotent and changes the pod exactly when the policy differed. */
  lemma NormalizeDnsPolicyProperties(pod: Pod)
    ensures NormalizeDnsPolicy(NormalizeDnsPolicy(pod)) == NormalizeDnsPolicy(pod)
    ensures NormalizeDnsPolicy(pod) != pod <==> pod.dnsPolicy != DNS_CLUSTER_FIRST_WITH_HOST_NET
  {
  }

  /**
   * Patching the kube-apiserver pod a second time sets no flag (and so
   * changes nothing) exactly when every container had at most one
   * address-types argument.
   */
  lemma KasPatchedIdempotentIff(pod: Pod)
    ensures !KasUpdated(KasPatched(pod))
        <==> forall i :: 0 <= i < |pod.containers| ==> AtMostOne(pod.containers[i].command, IsAddressTypesArg)
    ensures KasPatched(KasPatched(pod)) == KasPatched(pod) <==> !KasUpdated(KasPatched(pod))
  {
    var r := KasPatched(pod);
    if forall i :: 0 <= i < |pod.containers| ==> AtMostOne(pod.containers[i].command, IsAddressTypesArg) {
      forall i | 0 <= i < |r.containers| ensures !Any(r.containers[i].command, IsAddressTypesArg) {
        StrippedHasNoMatch(pod.containers[i].command);
      }
    } else {
      var i :| 0 <= i < |pod.containers| && !AtMostOne(pod.containers[i].command, IsAddressTypesArg);
      WithoutAddressTypesIdempotentIff(pod.containers[i].command);
      assert Any(r.containers[i].command, IsAddressTypesArg);
    }
  }

  /**
   * Patching the kube-controller-manager pod a second time sets no flag (and
   * so changes nothing) exactly when every container had at most one
   * untagged `--controllers=` argument.
   */
  lemma DisableNodeLifecycleIdempotentIff(pod: Pod)
    ensures !HasUntaggedControllersArg(DisableNodeLifecycle(pod))
        <==> forall i :: 0 <= i < |pod.containers| ==> AtMostOne(pod.containers[i].command, IsUntaggedControllersArg)
    ensures DisableNodeLifecycle(DisableNodeLifecycle(pod)) == DisableNodeLifecycle(pod)
        <==> !HasUntaggedControllersArg(DisableNodeLifecycle(pod))
  {
    var r := DisableNodeLifecycle(pod);
    if forall i :: 0 <= i < |pod.containers| ==> AtMostOne(pod.containers[i].command, IsUntaggedControllersArg) {
      forall i | 0 <= i < |r.containers| ensures !Any(r.containers[i].command, IsUntaggedControllersArg) {
        TaggedHasNoUntagged(pod.containers[i].command);
      }
    } else {
      var i :| 0 <= i < |pod.containers| && !AtMostOne(pod.containers[i].command, IsUntaggedControllersArg);
      var c := pod.containers[i].command;
      TagFirstUntaggedIdempotentIff(c);
      TagFirstUntaggedChanges(TagFirstUntagged(c));
      assert Any(r.containers[i].command, IsUntaggedControllersArg);
    }
  }
}
