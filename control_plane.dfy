/**
 * `node-servant config control-plane`: building the runner for a run mode
 * and a manifest directory, and the static-pod runner's `Do`, which loads
 * the kube-apiserver and kube-controller-manager manifests, patches them
 * in memory and writes back the ones it changed.
 */
module ControlPlane {
  import opened Wrappers
  import opened Strings
  import opened Pods
  import opened Transform
  import opened Manifests

  const KAS_MANIFEST: string := "kube-apiserver.yaml"
  const KCM_MANIFEST: string := "kube-controller-manager.yaml"
  const STATIC_POD_MODE: string := "pod"

  /** The options the command line hands to the runner factory. */
  datatype ControlPlaneOptions = ControlPlaneOptions(runMode: string, podManifestsPath: string)

  // ---------------------------------------------------------------------
  // Runner construction

  /** The directory part of a joined path: empty, or ending in one `/`. */
  function DirPrefix(dir: string): string {
    if dir == [] then [] else if dir[|dir| - 1] == '/' then dir else dir + "/"
  }

  /** `filepath.Join(dir, name)` for a plain file name. */
  function Join(dir: string, name: string): (r: string)
    ensures |r| >= |name| && r[|r| - |name|..] == name
  {
    DirPrefix(dir) + name
  }

  /** Joining one directory with two different names gives two different paths. */
  lemma JoinInjective(dir: string, a: string, b: string)
    requires a != b
    ensures Join(dir, a) != Join(dir, b)
  {
    var p := DirPrefix(dir);
    assert Join(dir, a)[|p|..] == a;
    assert Join(dir, b)[|p|..] == b;
  }

  /**
   * `newStaticPodRunner`: both manifest paths, after checking that the
   * kube-apiserver manifest and then the kube-controller-manager manifest
   * exist.
   */
  function NewStaticPodRunner(podManifestsPath: string, fs: Filesystem): (r: Result<StaticPodRunner, Error>)
    reads fs
    ensures r.Ok? <==> fs.FileExists(Join(podManifestsPath, KAS_MANIFEST)) && fs.FileExists(Join(podManifestsPath, KCM_MANIFEST))
    ensures !fs.FileExists(Join(podManifestsPath, KAS_MANIFEST)) ==> r == Err(FileNotExist(Join(podManifestsPath, KAS_MANIFEST)))
    ensures fs.FileExists(Join(podManifestsPath, KAS_MANIFEST)) && !fs.FileExists(Join(podManifestsPath, KCM_MANIFEST))
      ==> r == Err(FileNotExist(Join(podManifestsPath, KCM_MANIFEST)))
    ensures r.Ok? ==> r.value.kasStaticPodPath == Join(podManifestsPath, KAS_MANIFEST)
    ensures r.Ok? ==> r.value.kcmStaticPodPath == Join(podManifestsPath, KCM_MANIFEST)
    ensures r.Ok? ==> r.value.kasStaticPodPath != r.value.kcmStaticPodPath
  {
    var kasStaticPodPath := Join(podManifestsPath, KAS_MANIFEST);
    var kcmStaticPodPath := Join(podManifestsPath, KCM_MANIFEST);
    JoinInjective(podManifestsPath, KAS_MANIFEST, KCM_MANIFEST);
    if !fs.FileExists(kasStaticPodPath) then Err(FileNotExist(kasStaticPodPath))
    else if !fs.FileExists(kcmStaticPodPath) then Err(FileNotExist(kcmStaticPodPath))
    else Ok(StaticPodRunner(kasStaticPodPath, kcmStaticPodPath))
  }

  /** `NewControlPlaneRunner`: only the static-pod mode is implemented. */
  function NewControlPlaneRunner(o: ControlPlaneOptions, fs: Filesystem): (r: Result<StaticPodRunner, Error>)
    reads fs
    ensures o.runMode != STATIC_POD_MODE ==> r == Err(UnsupportedMode(o.runMode))
    ensures o.runMode == STATIC_POD_MODE ==> r == NewStaticPodRunner(o.podManifestsPath, fs)
    ensures r.Ok? ==> o.runMode == STATIC_POD_MODE && r.value.kasStaticPodPath in fs.files && r.value.kcmStaticPodPath in fs.files
  {
    if o.runMode == STATIC_POD_MODE then NewStaticPodRunner(o.podManifestsPath, fs)
    else Err(UnsupportedMode(o.runMode))
  }

  // ---------------------------------------------------------------------
  // The loops of Do

  /** The inner loop of the kube-apiserver pass: drop the first matching argument. */
  method RemoveFirstAddressTypesArg(cmd: seq<string>) returns (r: seq<string>, removed: bool)
    ensures r == WithoutAddressTypes(cmd)
    ensures removed <==> Any(cmd, IsAddressTypesArg)
  {
    r, removed := cmd, false;
    var j := 0;
    while j < |cmd|
      invariant 0 <= j <= |cmd|
      invariant r == cmd && !removed
      invariant forall i :: 0 <= i < j ==> !IsAddressTypesArg(cmd[i])
    {
      if Contains(cmd[j], ADDRESS_TYPES_KEY) {
        r := cmd[..j] + cmd[j + 1..];
        removed := true;
        return;
      }
      j := j + 1;
    }
  }

  /** The kube-apiserver pass over all containers; `updated` is what it sets `kasPodUpdated` to. */
  method RemoveAddressTypesArgs(pod: Pod) returns (p: Pod, updated: bool)
    ensures p == StripAddressTypes(pod)
    ensures updated <==> HasAddressTypesArg(pod)
  {
    p, updated := pod, false;
    var i := 0;
    while i < |p.containers|
      invariant 0 <= i <= |pod.containers| == |p.containers|
      invariant p.dnsPolicy == pod.dnsPolicy
      invariant forall k :: 0 <= k < i ==> p.containers[k] == StripContainer(pod.containers[k])
      invariant forall k :: i <= k < |pod.containers| ==> p.containers[k] == pod.containers[k]
      invariant updated <==> exists k :: 0 <= k < i && Any(pod.containers[k].command, IsAddressTypesArg)
    {
      var cmd, removed := RemoveFirstAddressTypesArg(p.containers[i].command);
      if removed {
        p := p.(containers := p.containers[i := p.containers[i].(command := cmd)]);
        updated := true;
      }
      i := i + 1;
    }
  }

  /** The inner loop of the kube-controller-manager pass: tag the first untagged `--controllers=`. */
  method TagFirstControllersArg(cmd: seq<string>) returns (r: seq<string>, tagged: bool)
    ensures r == TagFirstUntagged(cmd)
    ensures tagged <==> Any(cmd, IsUntaggedControllersArg)
  {
    r, tagged := cmd, false;
    var j := 0;
    while j < |r|
      invariant 0 <= j <= |r|
      invariant r == cmd && !tagged
      invariant forall i :: 0 <= i < j ==> !IsUntaggedControllersArg(cmd[i])
    {
      if Contains(r[j], CONTROLLERS_FLAG) {
        if !Contains(r[j], NODE_LIFECYCLE_TOKEN) {
          var insertPoint := IndexOf(r[j], '=') + 1;
          r := r[j := r[j][..insertPoint] + NODE_LIFECYCLE_TOKEN + r[j][insertPoint..]];
          tagged := true;
          return;
        }
      }
      j := j + 1;
    }
  }

  /** The kube-controller-manager pass over all containers; `updated` is what it sets `kcmPodUpdated` to. */
  method InsertNodeLifecycleTokens(pod: Pod) returns (p: Pod, updated: bool)
    ensures p == DisableNodeLifecycle(pod)
    ensures updated <==> HasUntaggedControllersArg(pod)
  {
    p, updated := pod, false;
    var i := 0;
    while i < |p.containers|
      invariant 0 <= i <= |pod.containers| == |p.containers|
      invariant p.dnsPolicy == pod.dnsPolicy
      invariant forall k :: 0 <= k < i ==> p.containers[k] == TagContainer(pod.containers[k])
      invariant forall k :: i <= k < |pod.containers| ==> p.containers[k] == pod.containers[k]
      invariant updated <==> exists k :: 0 <= k < i && Any(pod.containers[k].command, IsUntaggedControllersArg)
    {
      var cmd, tagged := TagFirstControllersArg(p.containers[i].command);
      if tagged {
        p := p.(containers := p.containers[i := p.containers[i].(command := cmd)]);
        updated := true;
      }
      i := i + 1;
    }
  }

  // ---------------------------------------------------------------------
  // What one run does to the manifest directory

  /** The error `Do` returns, if any, and the directory afterwards. */
  datatype Outcome = Outcome(err: Option<Error>, files: map<string, Manifest>)

  /** One conditional write-back: nothing when the pod was not updated. */
  function WriteBack(files: map<string, Manifest>, readOnly: set<string>, path: string, pod: Pod, updated: bool)
    : (r: Result<map<string, Manifest>, Error>)
    ensures !updated ==> r == Ok(files)
    ensures updated && path in readOnly ==> r == Err(WriteFailed(path))
    ensures updated && path !in readOnly ==> r == Ok(files[path := PodObject(pod)])
  {
    if !updated then Ok(files)
    else if path in readOnly then Err(WriteFailed(path))
    else Ok(files[path := PodObject(pod)])
  }

  /** Both manifests load and decode to Pods. */
  predicate BothLoad(spr: StaticPodRunner, files: map<string, Manifest>) {
    LoadPod(files, spr.kasStaticPodPath).Ok? && LoadPod(files, spr.kcmStaticPodPath).Ok?
  }

  /** The outcome of `Do`, as a function of the directory it starts from. */
  function Run(spr: StaticPodRunner, files: map<string, Manifest>, readOnly: set<string>): (r: Outcome)
    ensures r.err == None ==> BothLoad(spr, files)
    ensures !BothLoad(spr, files) ==> r.err.Some? && r.files == files
  {
    match LoadPod(files, spr.kasStaticPodPath)
    case Err(e) => Outcome(Some(e), files)
    case Ok(kasPod) =>
      match LoadPod(files, spr.kcmStaticPodPath)
      case Err(e) => Outcome(Some(e), files)
      case Ok(kcmPod) =>
        match WriteBack(files, readOnly, spr.kasStaticPodPath, KasPatched(kasPod), KasUpdated(kasPod))
        case Err(e) => Outcome(Some(e), files)
        case Ok(afterKas) =>
          match WriteBack(afterKas, readOnly, spr.kcmStaticPodPath, DisableNodeLifecycle(kcmPod), HasUntaggedControllersArg(kcmPod))
          case Err(e) => Outcome(Some(e), afterKas)
          case Ok(afterKcm) => Outcome(None, afterKcm)
  }

  datatype StaticPodRunner = StaticPodRunner(kasStaticPodPath: string, kcmStaticPodPath: string)
  {
    /** `staticPodRunner.Do`. */
    method Do(fs: Filesystem) returns (err: Option<Error>)
      modifies fs
      ensures fs.readOnly == old(fs.readOnly)
      ensures Outcome(err, fs.files) == Run(this, old(fs.files), old(fs.readOnly))
    {
      var kasPodUpdated := false;
      var kcmPodUpdated := false;

      var kasObj := fs.ReadObjectFromYamlFile(kasStaticPodPath);
      if kasObj.Err? {
        return Some(kasObj.error);
      }
      if !kasObj.value.PodObject? {
        return Some(NotAStaticPod(kasStaticPodPath));
      }
      var kasPod := kasObj.value.pod;
      ghost var kasLoaded := kasPod;

      var removed;
      kasPod, removed := RemoveAddressTypesArgs(kasPod);
      if removed {
        kasPodUpdated := true;
      }
      if kasPod.dnsPolicy != DNS_CLUSTER_FIRST_WITH_HOST_NET {
        kasPod := kasPod.(dnsPolicy := DNS_CLUSTER_FIRST_WITH_HOST_NET);
        kasPodUpdated := true;
      }
      assert kasPod == KasPatched(kasLoaded) && kasPodUpdated == KasUpdated(kasLoaded);

      var kcmObj := fs.ReadObjectFromYamlFile(kcmStaticPodPath);
      if kcmObj.Err? {
        return Some(kcmObj.error);
      }
      if !kcmObj.value.PodObject? {
        return Some(NotAStaticPod(kcmStaticPodPath));
      }
      var kcmPod := kcmObj.value.pod;

      var tagged;
      kcmPod, tagged := InsertNodeLifecycleTokens(kcmPod);
      if tagged {
        kcmPodUpdated := true;
      }

      if kasPodUpdated {
        err := fs.WriteObjectToYamlFile(kasPod, kasStaticPodPath);
        if err.Some? {
          return;
        }
      }
      if kcmPodUpdated {
        err := fs.WriteObjectToYamlFile(kcmPod, kcmStaticPodPath);
        if err.Some? {
          return;
        }
      }
      return None;
    }
  }
}
