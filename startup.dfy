/** The configuration part of `main`: what it reads from the environment,
    which settings it refuses to start without, and which loop it enters. */
module Startup {
  import opened Common
  import opened Reconciler
  import opened Namespaces

  const DefaultFolderAnnotation: string := "k8s-sidecar-target-directory"

  /** `Exit` carries the value `main` returns (-1) and the variable that was
      missing. Otherwise the one-shot list pass (METHOD=LIST) or the watch
      loop, with the loops' settings and addressing mode. */
  datatype Launch =
    | Exit(code: int, missing: string)
    | OneShot(settings: Settings, mode: Mode)
    | Watch(settings: Settings, mode: Mode)

  function Configure(env: map<string, string>): (r: Launch)
    ensures "LABEL" !in env ==> r == Exit(-1, "LABEL")
    ensures "LABEL" in env && "FOLDER" !in env ==> r == Exit(-1, "FOLDER")
    ensures r.Exit? <==> "LABEL" !in env || "FOLDER" !in env
    ensures !r.Exit? ==> r.settings.targetLabel == env["LABEL"] && r.settings.targetFolder == env["FOLDER"]
    ensures !r.Exit? && "FOLDER_ANNOTATIONS" !in env ==> r.settings.folderAnnotation == DefaultFolderAnnotation
    ensures !r.Exit? && "FOLDER_ANNOTATIONS" in env ==> r.settings.folderAnnotation == env["FOLDER_ANNOTATIONS"]
    ensures !r.Exit? ==> r.settings.url == Get(env, "REQ_URL")
    ensures !r.Exit? ==> r.settings.verb == Get(env, "REQ_METHOD") && r.settings.payload == Get(env, "REQ_PAYLOAD")
    ensures r.OneShot? <==> !r.Exit? && Get(env, "METHOD") == Some("LIST")
    ensures !r.Exit? ==> r.mode == SelectMode(Get(env, "NAMESPACE"), Get(env, "NAMESPACE_LABELS"))
  {
    var folderAnnotation := Get(env, "FOLDER_ANNOTATIONS").GetOr(DefaultFolderAnnotation);
    match Get(env, "LABEL")
    case None => Exit(-1, "LABEL")
    case Some(targetLabel) =>
      match Get(env, "FOLDER")
      case None => Exit(-1, "FOLDER")
      case Some(targetFolder) =>
        var settings := Settings(targetLabel, targetFolder, folderAnnotation,
                                 Get(env, "REQ_URL"), Get(env, "REQ_METHOD"), Get(env, "REQ_PAYLOAD"));
        var mode := SelectMode(Get(env, "NAMESPACE"), Get(env, "NAMESPACE_LABELS"));
        if Get(env, "METHOD") == Some("LIST") then OneShot(settings, mode) else Watch(settings, mode)
  }

  /** A missing LABEL is reported whatever FOLDER is: the FOLDER check is
      never reached. */
  lemma LabelCheckedFirst(env: map<string, string>, folder: string)
    requires "LABEL" !in env
    ensures Configure(env) == Configure(env["FOLDER" := folder])
  {
  }
}
