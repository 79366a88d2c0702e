/**
 * Image preparation: for each image the run needs, reuse the local copy, pull it from the
 * registry named by the image prefix, or build it from its container directory.
 */
module Images {
  import opened Common
  import opened Config

  datatype ImageAction =
    | Reuse(image: string)
    | Pull(image: string)
    | Build(name: string, context: string)

  /** `prepare_image`: `hasImage` says whether the driver already holds the prefixed image. */
  function PrepareImage(hasImage: bool, forceRebuild: bool, prefix: string, name: string, path: Option<string>): (a: ImageAction)
    ensures hasImage && !forceRebuild <==> a.Reuse?
    ensures a.Reuse? || a.Pull? ==> a.image == prefix + name
    ensures a.Pull? <==> (!hasImage || forceRebuild) && prefix != []
    ensures a.Build? <==> (!hasImage || forceRebuild) && prefix == []
    ensures a.Build? ==> a.name == name && a.context == path.GetOr("./containers/" + name)
  {
    if hasImage then
      if forceRebuild then
        if prefix != [] then Pull(prefix + name) else Build(name, path.GetOr("./containers/" + name))
      else Reuse(prefix + name)
    else if prefix != [] then Pull(prefix + name)
    else Build(name, path.GetOr("./containers/" + name))
  }

  /** With a prefix set, images come from the registry or the local store, never a build. */
  lemma PrefixNeverBuilds(hasImage: bool, forceRebuild: bool, prefix: string, name: string, path: Option<string>)
    requires prefix != []
    ensures !PrepareImage(hasImage, forceRebuild, prefix, name, path).Build?
  {
  }

  /** `force_rebuild` only matters for an image that is already present. */
  lemma ForceRebuildOnlyForPresent(forceRebuild: bool, prefix: string, name: string, path: Option<string>)
    ensures PrepareImage(false, forceRebuild, prefix, name, path) == PrepareImage(true, true, prefix, name, path)
  {
  }

  /** The image name and build context of a client version: `wasabi-client:<version>` from
      `./containers/wasabi-clients/v<major>/<version>`, the major being the version's first
      character. An empty version has no first character and raises (None). */
  function ClientImage(version: string): (r: Option<(string, string)>)
    ensures r.None? <==> version == []
    ensures r.Some? ==> r.value.0 == "wasabi-client:" + version
    ensures r.Some? ==> r.value.1 == "./containers/wasabi-clients/v" + [version[0]] + "/" + version
  {
    if version == [] then None
    else Some(("wasabi-client:" + version, "./containers/wasabi-clients/v" + [version[0]] + "/" + version))
  }

  /** The images prepared, in order, and whether preparation then raised. */
  datatype Prepared = Prepared(actions: seq<ImageAction>, raised: bool)

  /** `prepare_images`: the node, the coordinator, then one client image per version, in the
      order `versions` is listed. An empty version raises, after the images before it have been
      prepared. `hasImage` is the driver's answer for a prefixed image name. */
  function PrepareImages(hasImage: string -> bool, forceRebuild: bool, prefix: string, versions: seq<string>): (r: Prepared)
    ensures r.raised <==> [] in versions
    ensures |r.actions| >= 2
    ensures r.actions[0] == PrepareImage(hasImage(prefix + "btc-node"), forceRebuild, prefix, "btc-node", None)
    ensures r.actions[1] == PrepareImage(hasImage(prefix + "wasabi-backend"), forceRebuild, prefix, "wasabi-backend", None)
    ensures r.actions[2..] == ClientImagesFrom(hasImage, forceRebuild, prefix, versions).actions
    ensures !r.raised ==> |r.actions| == 2 + |versions|
  {
    var infra := [
      PrepareImage(hasImage(prefix + "btc-node"), forceRebuild, prefix, "btc-node", None),
      PrepareImage(hasImage(prefix + "wasabi-backend"), forceRebuild, prefix, "wasabi-backend", None)];
    var clients := ClientImagesFrom(hasImage, forceRebuild, prefix, versions);
    assert (infra + clients.actions)[2..] == clients.actions;
    Prepared(infra + clients.actions, clients.raised)
  }

  /** `prepare_client_images`: one image per version until the first empty version, which
      raises; the versions before it have all been prepared. */
  function ClientImagesFrom(hasImage: string -> bool, forceRebuild: bool, prefix: string, versions: seq<string>): (r: Prepared)
    ensures r.raised <==> [] in versions
    ensures |r.actions| <= |versions|
    ensures forall i :: 0 <= i < |r.actions| ==> versions[i] != []
    ensures !r.raised ==> |r.actions| == |versions|
    ensures r.raised ==> |r.actions| < |versions| && versions[|r.actions|] == []
  {
    if versions == [] then Prepared([], false)
    else
      match ClientImage(versions[0])
      case None => Prepared([], true)
      case Some(img) =>
        var rest := ClientImagesFrom(hasImage, forceRebuild, prefix, versions[1..]);
        assert [] in versions <==> [] in versions[1..] by {
          assert versions == [versions[0]] + versions[1..];
        }
        Prepared([PrepareImage(hasImage(prefix + img.0), forceRebuild, prefix, img.0, Some(img.1))] + rest.actions, rest.raised)
  }

  /** Each client image prepared is the one of its own version: under its own name, and from
      its own directory when it is built. */
  lemma {:induction false} ClientImagesMatch(hasImage: string -> bool, forceRebuild: bool, prefix: string, versions: seq<string>)
    ensures var r := ClientImagesFrom(hasImage, forceRebuild, prefix, versions);
      forall i :: 0 <= i < |r.actions| ==>
        var a := r.actions[i];
        && versions[i] != []
        && (a.Reuse? || a.Pull? ==> a.image == prefix + "wasabi-client:" + versions[i])
        && (a.Build? ==> a.name == "wasabi-client:" + versions[i])
        && (a.Build? ==> a.context == "./containers/wasabi-clients/v" + [versions[i][0]] + "/" + versions[i])
  {
    if versions != [] && versions[0] != [] {
      ClientImagesMatch(hasImage, forceRebuild, prefix, versions[1..]);
      var r := ClientImagesFrom(hasImage, forceRebuild, prefix, versions);
      var rest := ClientImagesFrom(hasImage, forceRebuild, prefix, versions[1..]);
      assert r.actions[1..] == rest.actions;
      forall i | 1 <= i < |r.actions|
        ensures r.actions[i] == rest.actions[i - 1] && versions[i] == versions[1..][i - 1]
      {
      }
      assert prefix + ("wasabi-client:" + versions[0]) == prefix + "wasabi-client:" + versions[0];
    }
  }

  /** The image a client's container runs is the one prepared for its version. */
  lemma ClientRunsPreparedImage(c: Client, prefix: string)
    requires c.version != []
    ensures ClientImage(c.version).Some?
    ensures ClientContainer(c, prefix).image == prefix + ClientImage(c.version).value.0
  {
    assert prefix + "wasabi-client:" + c.version == prefix + ("wasabi-client:" + c.version);
  }
}
