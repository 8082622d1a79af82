/**
 * What a run of the static-pod runner promises about the manifest
 * directory: failures before any write leave it untouched, only changed
 * manifests are written, a failed kube-apiserver write stops the run, and
 * a second run after a successful one changes nothing exactly when no
 * container carried a duplicate flag.
 */
module RunProperties {
  import opened Wrappers
  import opened Pods
  import opened Transform
  import opened Manifests
  import opened ControlPlane

  /**
   * A manifest that is missing, unreadable or not a Pod stops the run with
   * that manifest's error before anything is written; the kube-apiserver
   * manifest is checked first.
   */
  lemma LoadFailureWritesNothing(spr: StaticPodRunner, files: map<string, Manifest>, readOnly: set<string>)
    requires !BothLoad(spr, files)
    ensures Run(spr, files, readOnly).files == files
    ensures LoadPod(files, spr.kasStaticPodPath).Err? ==>
      Run(spr, files, readOnly).err == Some(LoadPod(files, spr.kasStaticPodPath).error)
    ensures LoadPod(files, spr.kasStaticPodPath).Ok? ==>
      Run(spr, files, readOnly).err == Some(LoadPod(files, spr.kcmStaticPodPath).error)
  {
  }

  /**
   * The run touches no file other than the two manifests, and a manifest's
   * content changes only when its pod was updated.
   */
  lemma WritesOnlyUpdatedManifests(spr: StaticPodRunner, files: map<string, Manifest>, readOnly: set<string>, path: string)
    requires path in files
    ensures Run(spr, files, readOnly).files.Keys == files.Keys
    ensures path in Run(spr, files, readOnly).files
    ensures Run(spr, files, readOnly).files[path] != files[path] ==>
      BothLoad(spr, files) &&
      ((path == spr.kasStaticPodPath && KasUpdated(LoadPod(files, spr.kasStaticPodPath).value)) ||
       (path == spr.kcmStaticPodPath && HasUntaggedControllersArg(LoadPod(files, spr.kcmStaticPodPath).value)))
  {
  }

  /** When neither pod needs a change the run succeeds and writes nothing. */
  lemma NoUpdateNoWrite(spr: StaticPodRunner, files: map<string, Manifest>, readOnly: set<string>)
    requires BothLoad(spr, files)
    requires !KasUpdated(LoadPod(files, spr.kasStaticPodPath).value)
    requires !HasUntaggedControllersArg(LoadPod(files, spr.kcmStaticPodPath).value)
    ensures Run(spr, files, readOnly) == Outcome(None, files)
  {
  }

  /**
   * A failed kube-apiserver write ends the run: the kube-controller-manager
   * manifest is not written even when its pod was updated.
   */
  lemma KasWriteFailureSkipsKcm(spr: StaticPodRunner, files: map<string, Manifest>, readOnly: set<string>)
    requires BothLoad(spr, files)
    requires KasUpdated(LoadPod(files, spr.kasStaticPodPath).value)
    requires spr.kasStaticPodPath in readOnly
    ensures Run(spr, files, readOnly) == Outcome(Some(WriteFailed(spr.kasStaticPodPath)), files)
  {
  }

  /**
   * A run succeeds exactly when both manifests load and every needed write
   * goes through; afterwards each manifest holds its patched pod.
   */
  lemma SuccessfulRunStoresPatched(spr: StaticPodRunner, files: map<string, Manifest>, readOnly: set<string>)
    requires spr.kasStaticPodPath != spr.kcmStaticPodPath
    ensures Run(spr, files, readOnly).err == None <==>
      BothLoad(spr, files) &&
      (KasUpdated(LoadPod(files, spr.kasStaticPodPath).value) ==> spr.kasStaticPodPath !in readOnly) &&
      (HasUntaggedControllersArg(LoadPod(files, spr.kcmStaticPodPath).value) ==> spr.kcmStaticPodPath !in readOnly)
    ensures Run(spr, files, readOnly).err == None ==>
      BothLoad(spr, files) &&
      Run(spr, files, readOnly).files[spr.kasStaticPodPath] == PodObject(KasPatched(LoadPod(files, spr.kasStaticPodPath).value)) &&
      Run(spr, files, readOnly).files[spr.kcmStaticPodPath] == PodObject(DisableNodeLifecycle(LoadPod(files, spr.kcmStaticPodPath).value))
  {
  }

  /** Every container of the pod has at most one argument satisfying `p`. */
  predicate NoDuplicates(pod: Pod, p: string -> bool) {
    forall i :: 0 <= i < |pod.containers| ==> AtMostOne(pod.containers[i].command, p)
  }

  /**
   * Running again after a successful run succeeds and leaves the directory
   * as it is exactly when, in the manifests first read, no kube-apiserver
   * container had two address-types arguments and no kube-controller-manager
   * container had two untagged `--controllers=` arguments.
   */
  lemma RunIdempotentIff(spr: StaticPodRunner, files: map<string, Manifest>, readOnly: set<string>)
    requires spr.kasStaticPodPath != spr.kcmStaticPodPath
    requires Run(spr, files, readOnly).err == None
    ensures BothLoad(spr, files)
    ensures Run(spr, Run(spr, files, readOnly).files, readOnly) == Outcome(None, Run(spr, files, readOnly).files)
        <==> NoDuplicates(LoadPod(files, spr.kasStaticPodPath).value, IsAddressTypesArg) &&
             NoDuplicates(LoadPod(files, spr.kcmStaticPodPath).value, IsUntaggedControllersArg)
  {
    SuccessfulRunStoresPatched(spr, files, readOnly);
    var kas, kcm := spr.kasStaticPodPath, spr.kcmStaticPodPath;
    var kasPod, kcmPod := LoadPod(files, kas).value, LoadPod(files, kcm).value;
    var after := Run(spr, files, readOnly).files;
    var kas1, kcm1 := KasPatched(kasPod), DisableNodeLifecycle(kcmPod);
    assert LoadPod(after, kas) == Ok(kas1);
    assert LoadPod(after, kcm) == Ok(kcm1);
    KasPatchedIdempotentIff(kasPod);
    DisableNodeLifecycleIdempotentIff(kcmPod);
    if !NoDuplicates(kasPod, IsAddressTypesArg) {
      // The first run changed the kube-apiserver pod, so its file is
      // writable, and the second run changes it again.
      assert KasUpdated(kas1) && KasPatched(kas1) != kas1;
      assert KasUpdated(kasPod) && kas !in readOnly;
      assert Run(spr, after, readOnly).files[kas] == PodObject(KasPatched(kas1));
    } else if !NoDuplicates(kcmPod, IsUntaggedControllersArg) {
      assert HasUntaggedControllersArg(kcm1) && DisableNodeLifecycle(kcm1) != kcm1;
      assert HasUntaggedControllersArg(kcmPod) && kcm !in readOnly;
      assert Run(spr, after, readOnly).files[kcm] == PodObject(DisableNodeLifecycle(kcm1));
    } else {
      NoUpdateNoWrite(spr, after, readOnly);
    }
  }
}
