/** The ConfigMap, Pod and Service behind a published share, and the upserts that create or replace them. */
module Publishing {
  import opened Cascade

  datatype Kind = ConfigMapKind | PodKind | ServiceKind

  datatype ObjectKey = ObjectKey(kind: Kind, namespace: string, name: string)

  /** How the API server answers an update of an existing object. */
  datatype UpdateAnswer = Taken | Immutable | Refused

  /** The server's answers to the calls of one upsert; deleting an object that is gone counts as deleted. */
  datatype Answers = Answers(readOk: bool, createOk: bool, update: UpdateAnswer, deleteOk: bool, recreateOk: bool)

  type Objects = map<ObjectKey, string>

  datatype Protocol = Smb | Nfs

  /** One publication of a share: what its three objects should hold and what the server answers. */
  datatype Publication = Publication(share: Key, protocol: Protocol, config: string, pod: string, service: string,
                                     forConfig: Answers, forPod: Answers, forService: Answers)

  function BaseName(share: Key, protocol: Protocol): string {
    ObjectPrefix(if protocol == Smb then "SMB" else "NFS") + share.name
  }

  function ConfigKey(share: Key, protocol: Protocol): ObjectKey {
    ObjectKey(ConfigMapKind, share.namespace, BaseName(share, protocol))
  }

  function PodKey(share: Key, protocol: Protocol): ObjectKey {
    ObjectKey(PodKind, share.namespace, BaseName(share, protocol))
  }

  function ServiceKey(share: Key, protocol: Protocol): ObjectKey {
    ObjectKey(ServiceKind, share.namespace, BaseName(share, protocol) + "-svc")
  }

  predicate UpsertOk(objects: Objects, key: ObjectKey, a: Answers) {
    a.readOk && if key in objects then a.update == Taken else a.createOk
  }

  predicate PodUpsertOk(objects: Objects, key: ObjectKey, a: Answers) {
    a.readOk && if key !in objects then a.createOk else a.update == Taken || (a.update == Immutable && a.deleteOk && a.recreateOk)
  }

  /** The pod is deleted to be replaced, and the replacement is refused. */
  predicate PodLost(objects: Objects, key: ObjectKey, a: Answers) {
    a.readOk && key in objects && a.update == Immutable && a.deleteOk && !a.recreateOk
  }

  class ObjectStore {
    var objects: Objects

    method UpsertObject(key: ObjectKey, content: string, a: Answers) returns (ok: bool)
      modifies this
      ensures ok == UpsertOk(old(objects), key, a)
      ensures objects == if ok then old(objects)[key := content] else old(objects)
    {
      if !a.readOk {
        return false;
      }
      if key !in objects {
        if a.createOk {
          objects := objects[key := content];
        }
        return a.createOk;
      }
      if a.update == Taken {
        objects := objects[key := content];
      }
      return a.update == Taken;
    }

    method UpsertPodObject(key: ObjectKey, content: string, a: Answers) returns (ok: bool)
      modifies this
      ensures ok == PodUpsertOk(old(objects), key, a)
      ensures objects == if ok then old(objects)[key := content]
                         else if PodLost(old(objects), key, a) then old(objects) - {key}
                         else old(objects)
    {
      if !a.readOk {
        return false;
      }
      if key !in objects {
        if a.createOk {
          objects := objects[key := content];
        }
        return a.createOk;
      }
      match a.update {
        case Taken =>
          objects := objects[key := content];
          return true;
        case Immutable =>
          if !a.deleteOk {
            return false;
          }
          objects := objects - {key};
          if a.recreateOk {
            objects := objects[key := content];
          }
          return a.recreateOk;
        case Refused =>
          return false;
      }
    }

    /** reconcileSMBShare and reconcileNFSShare: three upserts, the first error ends it. */
    method PublishShare(p: Publication) returns (ok: bool)
      modifies this
      ensures ok == Succeeds(old(objects), p) && objects == After(old(objects), p)
    {
      ok := UpsertObject(ConfigKey(p.share, p.protocol), p.config, p.forConfig);
      if !ok {
        return false;
      }
      ok := UpsertPodObject(PodKey(p.share, p.protocol), p.pod, p.forPod);
      if !ok {
        return false;
      }
      ok := UpsertObject(ServiceKey(p.share, p.protocol), p.service, p.forService);
    }
  }

  predicate Succeeds(objects: Objects, p: Publication) {
    && UpsertOk(objects, ConfigKey(p.share, p.protocol), p.forConfig)
    && PodUpsertOk(objects, PodKey(p.share, p.protocol), p.forPod)
    && UpsertOk(objects, ServiceKey(p.share, p.protocol), p.forService)
  }

  function After(objects: Objects, p: Publication): Objects {
    var c, d, s := ConfigKey(p.share, p.protocol), PodKey(p.share, p.protocol), ServiceKey(p.share, p.protocol);
    if !UpsertOk(objects, c, p.forConfig) then objects
    else
      var withConfig := objects[c := p.config];
      if PodLost(withConfig, d, p.forPod) then withConfig - {d}
      else if !PodUpsertOk(withConfig, d, p.forPod) then withConfig
      else
        var withPod := withConfig[d := p.pod];
        if UpsertOk(withPod, s, p.forService) then withPod[s := p.service] else withPod
  }

  function Publish(objects: Objects, ps: seq<Publication>): Objects {
    if ps == [] then objects else After(Publish(objects, ps[..|ps| - 1]), ps[|ps| - 1])
  }

  /** The three objects hold what this publication wants. */
  ghost predicate Shown(objects: Objects, p: Publication) {
    var c, d, s := ConfigKey(p.share, p.protocol), PodKey(p.share, p.protocol), ServiceKey(p.share, p.protocol);
    && c in objects && objects[c] == p.config
    && d in objects && objects[d] == p.pod
    && s in objects && objects[s] == p.service
  }

  lemma {:induction false} BaseNamesDiffer(a: Key, b: Key, p: Protocol, q: Protocol)
    requires BaseName(a, p) == BaseName(b, q)
    ensures a.name == b.name && p == q
  {
    assert |"kubenas-smb-"| == |"kubenas-nfs-"| == 12;
    assert BaseName(a, p)[12..] == a.name && BaseName(b, q)[12..] == b.name;
    assert "kubenas-smb-"[8] == 's' && "kubenas-nfs-"[8] == 'n';
    assert BaseName(a, p)[8] == (if p == Smb then 's' else 'n') && BaseName(b, q)[8] == if q == Smb then 's' else 'n';
  }

  /** Publications of different shares, or of one share under different protocols, share no object. */
  lemma {:induction false} SharesDoNotCollide(a: Key, b: Key, p: Protocol, q: Protocol)
    requires a != b || p != q
    ensures ConfigKey(a, p) != ConfigKey(b, q) && PodKey(a, p) != PodKey(b, q) && ServiceKey(a, p) != ServiceKey(b, q)
  {
    if BaseName(a, p) == BaseName(b, q) {
      BaseNamesDiffer(a, b, p, q);
    }
    if BaseName(a, p) + "-svc" == BaseName(b, q) + "-svc" {
      assert (BaseName(a, p) + "-svc")[..|BaseName(a, p)|] == BaseName(a, p);
      assert (BaseName(b, q) + "-svc")[..|BaseName(b, q)|] == BaseName(b, q);
    }
  }

  /** The server takes this upsert: it creates what is absent or updates what is there. */
  predicate Takes(a: Answers, present: bool) {
    a.readOk && (if present then a.update == Taken else a.createOk)
  }

  /** The server refuses to change the pod, lets it be deleted, and answers this to its re-creation. */
  predicate Replaces(a: Answers, present: bool, created: bool) {
    a.readOk && present && a.update == Immutable && a.deleteOk && a.recreateOk == created
  }

  /**
   What a publication leaves, object by object. The ConfigMap is written exactly if the server takes it, the Pod exactly if the
   ConfigMap was and the server takes or replaces it, the Service exactly if both were and the server takes it. A refused
   replacement removes the Pod. Everything else stays, and the publication succeeds exactly if all three were written.
   */
  lemma {:induction false} PublicationLeaves(objects: Objects, p: Publication)
    ensures var base := (if p.protocol == Smb then "kubenas-smb-" else "kubenas-nfs-") + p.share.name;
      var c, d := ObjectKey(ConfigMapKind, p.share.namespace, base), ObjectKey(PodKind, p.share.namespace, base);
      var s := ObjectKey(ServiceKind, p.share.namespace, base + "-svc");
      var configOk := Takes(p.forConfig, c in objects);
      var podOk := configOk && (Takes(p.forPod, d in objects) || Replaces(p.forPod, d in objects, true));
      var serviceOk := podOk && Takes(p.forService, s in objects);
      var after := After(objects, p);
      && (Succeeds(objects, p) <==> serviceOk)
      && (if configOk then c in after && after[c] == p.config else Same(objects, after, c))
      && (if podOk then d in after && after[d] == p.pod
          else if configOk && Replaces(p.forPod, d in objects, false) then d !in after
          else Same(objects, after, d))
      && (if serviceOk then s in after && after[s] == p.service else Same(objects, after, s))
      && (forall k | k != c && k != d && k != s :: Same(objects, after, k))
  {
    assert ConfigKey(p.share, p.protocol).kind == ConfigMapKind && PodKey(p.share, p.protocol).kind == PodKind;
    assert ServiceKey(p.share, p.protocol).kind == ServiceKind;
  }

  predicate Same(before: Objects, after: Objects, k: ObjectKey) {
    (k in after <==> k in before) && (k in after ==> after[k] == before[k])
  }

  /** A publication that succeeds leaves all three objects as wanted. */
  lemma SuccessShows(objects: Objects, p: Publication)
    ensures Succeeds(objects, p) ==> Shown(After(objects, p), p)
  {
    assert ConfigKey(p.share, p.protocol).kind != PodKey(p.share, p.protocol).kind;
    assert ServiceKey(p.share, p.protocol).kind == ServiceKind;
  }

  lemma {:induction false} OthersLeaveItShown(objects: Objects, p: Publication, q: Publication)
    requires Shown(objects, p) && (q.share != p.share || q.protocol != p.protocol)
    ensures Shown(After(objects, q), p)
  {
    SharesDoNotCollide(p.share, q.share, p.protocol, q.protocol);
  }

  /**
   After any history, a share whose last publication under its protocol succeeded still has exactly the objects that
   publication wanted, whatever was published before it and for other shares since, with whatever answers.
   */
  lemma {:induction false} LastPublicationShows(start: Objects, earlier: seq<Publication>, p: Publication, later: seq<Publication>)
    requires Succeeds(Publish(start, earlier), p)
    requires forall i | 0 <= i < |later| :: later[i].share != p.share || later[i].protocol != p.protocol
    ensures Shown(Publish(start, earlier + [p] + later), p)
  {
    if later == [] {
      assert earlier + [p] + later == earlier + [p] && (earlier + [p])[..|earlier|] == earlier;
      SuccessShows(Publish(start, earlier), p);
    } else {
      var n := |later| - 1;
      LastPublicationShows(start, earlier, p, later[..n]);
      assert (earlier + [p] + later)[..|earlier + [p] + later| - 1] == earlier + [p] + later[..n];
      OthersLeaveItShown(Publish(start, earlier + [p] + later[..n]), p, later[n]);
    }
  }

  /** A failed publication takes an object away exactly when the pod had to be replaced and its replacement was refused. */
  lemma {:induction false} TakesAwayIff(objects: Objects, p: Publication)
    ensures !(objects.Keys <= After(objects, p).Keys)
       <==> UpsertOk(objects, ConfigKey(p.share, p.protocol), p.forConfig) && PodLost(objects, PodKey(p.share, p.protocol), p.forPod)
  {
    var c, d := ConfigKey(p.share, p.protocol), PodKey(p.share, p.protocol);
    assert c != d;
    if UpsertOk(objects, c, p.forConfig) && PodLost(objects, d, p.forPod) {
      assert PodLost(objects[c := p.config], d, p.forPod);
      assert d in objects && d !in After(objects, p);
    }
  }
}
