# OpenYurt `node-servant config control-plane`: static-pod patch engine

This project models the part of OpenYurt's node-servant that prepares a
control plane for edge nodes. It edits the two control-plane static-pod
manifests found in a manifest directory:

* **kube-apiserver**: in every container, the first command argument that
  mentions `kubelet-preferred-address-types=` is deleted. This makes the API
  server reach nodes by hostname. The pod's DNS policy is then forced to
  `ClusterFirstWithHostNet`, so that edge hostnames resolve through cluster
  DNS to the tunnel server.
* **kube-controller-manager**: in every container, the first argument that
  mentions `--controllers=` but not `-nodelifecycle,` gets `-nodelifecycle,`
  inserted right after its first `=`. This disables the stock
  node-lifecycle controller.
* Each manifest is written back only if its pod changed. That is tracked
  by the flags `kasPodUpdated` and `kcmPodUpdated`.

Before any of this, the runner factory accepts only the `pod` run mode. It
also checks that both manifest files exist.

Layout:

| file | module | contents |
|---|---|---|
| `wrappers.dfy` | `Wrappers` | `Option`, `Result` |
| `strings.dfy` | `Strings` | `strings.Contains` and `strings.Index` over `seq<char>`, with lemmas |
| `pods.dfy` | `Pods` | the `Pod` and `Container` values and the DNS policy constants |
| `transform.dfy` | `Transform` | the three rewrites as functions, and the properties proved of them |
| `manifests.dfy` | `Manifests` | the manifest directory (`Filesystem` class), load and write, error values |
| `control_plane.dfy` | `ControlPlane` | runner construction, the loops of `Do` as methods, `Do` itself, and `Run`, the function that specifies `Do` |
| `run_properties.dfy` | `RunProperties` | what one run and two runs do to the directory |

The loops of `Do` are methods with `while` loops. Each is proved equal to
the function in `Transform` that specifies it. `Do` is proved equal to
`Run`: same error, same directory afterwards. The properties are lemmas
about those functions.

Some of this differs from what the comments and a quick reading suggest;
the model follows the code:

* The controller-manager scan keeps going past an argument that already
  carries `-nodelifecycle,`. The `break` at line 123 is inside the
  "token absent" branch, so only a tagging ends the scan.
* The comment at line 119 says the token goes "after =". The test at
  line 118, however, looks for `-nodelifecycle,` anywhere in the argument,
  not only right after the `=`.
* When the kube-apiserver write fails, `Do` returns at line 132. The
  controller-manager manifest is then not written. The two writes are not
  independent.
* Running twice is not always the same as running once.
  `RunProperties.RunIdempotentIff` proves that a second run is a no-op
  exactly when no container held a duplicate matching argument.

## Model

| member | source | states |
|---|---|---|
| `Strings.IndexOf` | pkg/node-servant/config/control-plane.go:120 | the result is -1 exactly when there is no `=`; otherwise it is the offset of the first `=` |
| `Strings.ContainsIffOccurs` | pkg/node-servant/config/control-plane.go:88 | the substring test holds exactly when the needle occurs at some offset |
| `Strings.Contains` | pkg/node-servant/config/control-plane.go:88 | `strings.Contains`: a string never contains a longer one, and the empty string is contained in every string |
| `Transform.FirstWhere` | pkg/node-servant/config/control-plane.go:87-88 | the scan finds the first argument that satisfies the test, and finds none only when no argument does |
| `Transform.IsAddressTypesArg` | pkg/node-servant/config/control-plane.go:88 | the test of line 88, which holds exactly when `kubelet-preferred-address-types=` occurs at some offset of the argument |
| `Transform.WithoutAddressTypes` | pkg/node-servant/config/control-plane.go:87-93 | a command with no address-types argument is unchanged; otherwise exactly the first such argument is spliced out, the rest keep their order, and the length drops by one |
| `Transform.StripAddressTypes` | pkg/node-servant/config/control-plane.go:86-95 | the removal is applied to every container; the container count and the DNS policy do not change |
| `Transform.StrippedHasNoMatch` | pkg/node-servant/config/control-plane.go:87-93 | if at most one argument matched, none matches after the removal |
| `Transform.WithoutAddressTypesIdempotentIff` | pkg/node-servant/config/control-plane.go:87-93 | removing a second time changes nothing exactly when the command had at most one address-types argument |
| `Transform.NormalizeDnsPolicy` | pkg/node-servant/config/control-plane.go:99-102 | afterwards the policy is `ClusterFirstWithHostNet`; the containers do not change |
| `Transform.NormalizeDnsPolicyProperties` | pkg/node-servant/config/control-plane.go:99-102 | the DNS step is idempotent, and it changes the pod exactly when the policy was different |
| `Transform.StripChangesIffMatch` | pkg/node-servant/config/control-plane.go:86-95 | the removal pass changes the pod exactly when some container has an address-types argument |
| `Transform.KasPatched` | pkg/node-servant/config/control-plane.go:86-102 | the patched kube-apiserver pod has DNS policy `ClusterFirstWithHostNet`, the same number of containers, and each container's command with its first address-types argument removed |
| `Transform.KasUpdated` | pkg/node-servant/config/control-plane.go:72-101 | the final value of `kasPodUpdated`, which is true exactly when the kube-apiserver pod was changed |
| `Transform.KasPatchedIdempotentIff` | pkg/node-servant/config/control-plane.go:86-102 | patching the kube-apiserver pod again sets no flag, and changes nothing, exactly when no container had two address-types arguments |
| `Transform.IsUntaggedControllersArg` | pkg/node-servant/config/control-plane.go:117-118 | the tests of lines 117-118; an argument that passes them contains `=`, so the insertion point of line 120 always follows an `=` |
| `Transform.InsertNodeLifecycle` | pkg/node-servant/config/control-plane.go:120-121 | the tagged argument contains `-nodelifecycle,` and is 15 characters longer |
| `Transform.InsertNodeLifecycleKeepsFlag` | pkg/node-servant/config/control-plane.go:117-121 | tagging a `--controllers=` argument leaves it a `--controllers=` argument |
| `Transform.InsertNodeLifecycleAfterFlag` | pkg/node-servant/config/control-plane.go:120-121 | on `--controllers=<list>` the result is `--controllers=-nodelifecycle,<list>` |
| `Transform.TagFirstUntagged` | pkg/node-servant/config/control-plane.go:116-126 | the command keeps its length |
| `Transform.TagFirstUntaggedChanges` | pkg/node-servant/config/control-plane.go:116-126 | only the first untagged `--controllers=` argument can change, and it changes to its tagged form; arguments that already carry the token never change; the command changes exactly when some argument is untagged |
| `Transform.TaggedHasNoUntagged` | pkg/node-servant/config/control-plane.go:116-126 | if at most one argument was untagged, none is after the pass |
| `Transform.TagFirstUntaggedIdempotentIff` | pkg/node-servant/config/control-plane.go:116-126 | tagging a second time changes nothing exactly when the command had at most one untagged `--controllers=` argument |
| `Transform.DisableNodeLifecycle` | pkg/node-servant/config/control-plane.go:115-127 | the tagging is applied to every container; the container count and the DNS policy do not change |
| `Transform.TagChangesIffUntagged` | pkg/node-servant/config/control-plane.go:115-127 | the tagging pass changes the pod exactly when some container has an untagged `--controllers=` argument |
| `Transform.HasUntaggedControllersArg` | pkg/node-servant/config/control-plane.go:73-122 | the final value of `kcmPodUpdated`, which is true exactly when the controller-manager pod was changed; so a pod whose `--controllers=` arguments all carry the token is left as it is |
| `Transform.DisableNodeLifecycleIdempotentIff` | pkg/node-servant/config/control-plane.go:115-127 | patching the controller-manager pod again sets no flag, and changes nothing, exactly when no container had two untagged `--controllers=` arguments |
| `Manifests.Filesystem.FileExists` | pkg/node-servant/config/control-plane.go:57-63 | the existence probe; a file that does not exist cannot be read |
| `Manifests.ReadObject` | pkg/node-servant/config/control-plane.go:75-78 | reading succeeds exactly when the file is present and decodes, and then yields the decoded object; otherwise it is a read error naming the path |
| `Manifests.Filesystem.ReadObjectFromYamlFile` | pkg/node-servant/config/control-plane.go:105 | the read call returns what `ReadObject` gives for the current directory, and changes nothing |
| `Manifests.LoadPod` | pkg/node-servant/config/control-plane.go:75-82 | loading succeeds exactly when the file holds a Pod; a missing or unreadable file gives a read error, and an object of another kind gives "not a static pod" |
| `Manifests.Filesystem.WriteObjectToYamlFile` | pkg/node-servant/config/control-plane.go:131 | a writable file now holds the pod; a read-only one gives a write error and is left as it was |
| `ControlPlane.Join` | pkg/node-servant/config/control-plane.go:55-56 | the joined path ends with the file name |
| `ControlPlane.JoinInjective` | pkg/node-servant/config/control-plane.go:55-56 | two different file names in the same directory give two different paths |
| `ControlPlane.NewStaticPodRunner` | pkg/node-servant/config/control-plane.go:54-69 | succeeds exactly when both manifests exist; the kube-apiserver manifest is checked first; on success the runner holds both joined paths, and they differ |
| `ControlPlane.NewControlPlaneRunner` | pkg/node-servant/config/control-plane.go:40-47 | any mode other than `pod` is an unsupported-mode error; `pod` builds the static-pod runner |
| `ControlPlane.RemoveFirstAddressTypesArg` | pkg/node-servant/config/control-plane.go:87-94 | the loop computes `WithoutAddressTypes`, and reports a removal exactly when some argument matched |
| `ControlPlane.RemoveAddressTypesArgs` | pkg/node-servant/config/control-plane.go:86-95 | the loop computes `StripAddressTypes`, and sets the flag exactly when some container had a match |
| `ControlPlane.TagFirstControllersArg` | pkg/node-servant/config/control-plane.go:116-126 | the loop computes `TagFirstUntagged`, and reports a tagging exactly when some argument was untagged |
| `ControlPlane.InsertNodeLifecycleTokens` | pkg/node-servant/config/control-plane.go:115-127 | the loop computes `DisableNodeLifecycle`, and sets the flag exactly when some container had an untagged argument |
| `ControlPlane.WriteBack` | pkg/node-servant/config/control-plane.go:130-140 | one gated write: nothing when the flag is unset; otherwise a write error for a read-only file, or the file now holds the pod |
| `ControlPlane.Run` | pkg/node-servant/config/control-plane.go:71-143 | the outcome of one run: a success implies that both manifests loaded as Pods, and a load failure returns an error and leaves the directory as it was |
| `ControlPlane.StaticPodRunner.Do` | pkg/node-servant/config/control-plane.go:71-143 | the error returned and the directory afterwards are those given by `Run`; which files are read-only does not change |
| `RunProperties.LoadFailureWritesNothing` | pkg/node-servant/config/control-plane.go:75-82 | if either manifest fails to load or is not a Pod, nothing is written and that manifest's error is returned; the kube-apiserver manifest is checked first |
| `RunProperties.WritesOnlyUpdatedManifests` | pkg/node-servant/config/control-plane.go:129-140 | the run creates and deletes no file, no file other than the two manifests changes, and a manifest changes only if its pod was updated |
| `RunProperties.NoUpdateNoWrite` | pkg/node-servant/config/control-plane.go:129-142 | when neither flag is set, the run succeeds and writes nothing |
| `RunProperties.KasWriteFailureSkipsKcm` | pkg/node-servant/config/control-plane.go:130-134 | a failed kube-apiserver write returns at once, so the controller-manager manifest is not written |
| `RunProperties.SuccessfulRunStoresPatched` | pkg/node-servant/config/control-plane.go:71-143 | a run succeeds exactly when both manifests load and every needed write is allowed; afterwards each file holds its patched pod |
| `RunProperties.RunIdempotentIff` | pkg/node-servant/config/control-plane.go:86-140 | after a successful run, a second run succeeds and changes nothing exactly when neither pod had a container with a duplicate matching argument |

## Left out

- YAML decoding and encoding (`fileutil.ReadObjectFromYamlFile`, `fileutil.WriteObjectToYamlFile`) are not modelled. A file holds the decoded object directly: a Pod, an object of another kind, or something unreadable. A write stores the Pod exactly.
- A write either succeeds completely or fails and leaves the file as it was. Which files fail is fixed by the `readOnly` set. Partial writes and I/O errors other than a refused write are not modelled.
- `fileutil.FileExists` is "the path is in the directory". Its error result is ignored by the code and is not modelled.
- ControlPlane.Join: models `filepath.Join` for a plain file name only, as the directory followed by `/` unless it already ends in one. The path cleaning of `filepath.Clean` (`..`, `.`, repeated slashes) is not modelled.
- A Pod keeps only its containers' commands and its DNS policy. The other fields of `v1.Pod` are never read or written by this code.
- Strings are sequences of characters, while Go indexes strings by bytes. The split point is the same in both, because `=` is a single byte that never occurs inside a multi-byte character.
- The `Runner` interface has a single implementation, so it becomes the `StaticPodRunner` datatype. The unused `ControlPlaneConfig` struct is not modelled.
- Error messages are error variants that carry the offending mode or path, not formatted text.
- Concurrent writers to the manifest directory are not modelled; the code takes no locks.
