/**
 * The manifest directory as the runner sees it: the YAML object each file
 * decodes to, and which files cannot be written. Decoding and encoding
 * YAML is not modelled; a file holds the decoded object directly.
 */
module Manifests {
  import opened Wrappers
  import opened Pods

  /** What a manifest file decodes to. */
  datatype Manifest =
    | PodObject(pod: Pod)
    | OtherObject(kind: string)  // a valid manifest of another kind, such as a ConfigMap
    | Unparsable                 // unreadable, or not a Kubernetes object

  /** The errors the runner returns, one variant per `return` in the Go code. */
  datatype Error =
    | UnsupportedMode(mode: string)
    | FileNotExist(path: string)
    | ReadFailed(path: string)
    | NotAStaticPod(path: string)
    | WriteFailed(path: string)

  /** `fileutil.ReadObjectFromYamlFile` on a snapshot of the directory. */
  function ReadObject(files: map<string, Manifest>, path: string): (r: Result<Manifest, Error>)
    ensures r.Ok? <==> path in files && !files[path].Unparsable?
    ensures r.Ok? ==> r.value == files[path]
    ensures r.Err? ==> r.error == ReadFailed(path)
  {
    if path !in files || files[path].Unparsable? then Err(ReadFailed(path))
    else Ok(files[path])
  }

  /** Reading a manifest and asserting that it is a Pod. */
  function LoadPod(files: map<string, Manifest>, path: string): (r: Result<Pod, Error>)
    ensures r.Ok? <==> path in files && files[path].PodObject?
    ensures r.Ok? ==> files[path] == PodObject(r.value)
    ensures r.Err? && path in files && files[path].OtherObject? ==> r.error == NotAStaticPod(path)
    ensures r.Err? && (path !in files || files[path].Unparsable?) ==> r.error == ReadFailed(path)
  {
    match ReadObject(files, path)
    case Err(e) => Err(e)
    case Ok(obj) => if obj.PodObject? then Ok(obj.pod) else Err(NotAStaticPod(path))
  }

  /** The manifest directory, which the runner probes, reads and overwrites. */
  class Filesystem {
    var files: map<string, Manifest>
    var readOnly: set<string>

    constructor (files: map<string, Manifest>, readOnly: set<string>)
      ensures this.files == files && this.readOnly == readOnly
    {
      this.files := files;
      this.readOnly := readOnly;
    }

    /** `fileutil.FileExists`. */
    predicate FileExists(path: string)
      reads this
      ensures !FileExists(path) ==> ReadObject(files, path) == Err(ReadFailed(path))
    {
      path in files
    }

    /** `fileutil.ReadObjectFromYamlFile`. */
    method ReadObjectFromYamlFile(path: string) returns (r: Result<Manifest, Error>)
      ensures r == ReadObject(files, path)
    {
      r := ReadObject(files, path);
    }

    /** `fileutil.WriteObjectToYamlFile`: overwrites the file unless it is read-only. */
    method WriteObjectToYamlFile(pod: Pod, path: string) returns (err: Option<Error>)
      modifies this
      ensures readOnly == old(readOnly)
      ensures path in readOnly ==> err == Some(WriteFailed(path)) && files == old(files)
      ensures path !in readOnly ==> err == None && files == old(files)[path := PodObject(pod)]
    {
      if path in readOnly {
        err := Some(WriteFailed(path));
      } else {
        files := files[path := PodObject(pod)];
        err := None;
      }
    }
  }
}
