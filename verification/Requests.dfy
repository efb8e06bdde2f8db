/** The request loop of `_Connection.handle` in borg_ipc.py. */
module Requests {
  import opened Wrappers

  datatype Permission = StatusPermission | RunPermission | ConfigurePermission | RestorePermission

  /** `METHOD_ACTIONS` */
  const ACTIONS: map<string, Permission> := map[
    "ping" := StatusPermission, "get_status" := StatusPermission, "get_config" := StatusPermission,
    "get_logs" := StatusPermission, "list_archives" := StatusPermission, "list_volumes" := StatusPermission,
    "archive_info" := StatusPermission, "subscribe" := StatusPermission,
    "run_job" := RunPermission, "cancel" := RunPermission,
    "save_config" := ConfigurePermission, "import_legacy" := ConfigurePermission, "init_repo" := ConfigurePermission,
    "extract" := RestorePermission, "mount" := RestorePermission, "umount" := RestorePermission,
    "delete_archive" := RestorePermission]

  datatype Request = Request(id: int, name: string)

  /** Every reply carries the id of its request. */
  datatype Reply =
    | UnknownMethod(id: int)
    | Unauthorized(id: int)
    | Subscribed(id: int)
    | Handled(id: int)

  function PermissionFor(request: Request): Option<Permission> {
    if request.name in ACTIONS then Some(ACTIONS[request.name]) else None
  }

  /** What the authorizer answers when it is asked while request `i` is served. */
  type Authorizer = nat -> bool

  /** The permissions granted before request `n`. */
  function Granted(requests: seq<Request>, allow: Authorizer, n: nat): set<Permission>
    requires n <= |requests|
  {
    if n == 0 then {}
    else
      var before := Granted(requests, allow, n - 1);
      match PermissionFor(requests[n - 1])
      case None => before
      case Some(p) => if allow(n - 1) then before + {p} else before
  }

  function ReplyTo(requests: seq<Request>, allow: Authorizer, n: nat): Reply
    requires n < |requests|
  {
    var request := requests[n];
    match PermissionFor(request)
    case None => UnknownMethod(request.id)
    case Some(p) =>
      if p !in Granted(requests, allow, n) && !allow(n) then Unauthorized(request.id)
      else if request.name == "subscribe" then Subscribed(request.id)
      else Handled(request.id)
  }

  /** The authorizer is asked at request `n`. */
  predicate Asked(requests: seq<Request>, allow: Authorizer, n: nat)
    requires n < |requests|
  {
    PermissionFor(requests[n]).Some? && PermissionFor(requests[n]).value !in Granted(requests, allow, n)
  }

  /** Serves requests until one subscribes or the peer stops reading replies. */
  method Serve(requests: seq<Request>, allow: Authorizer, delivered: nat -> bool)
    returns (replies: seq<Reply>, asked: seq<nat>)
    ensures |replies| <= |requests|
    ensures forall n :: 0 <= n < |replies| ==> replies[n] == ReplyTo(requests, allow, n)
    ensures forall n :: n in asked <==> 0 <= n < |replies| && Asked(requests, allow, n)
    ensures |replies| < |requests| ==>
              |replies| > 0 && (replies[|replies| - 1].Subscribed? ||
                                (replies[|replies| - 1].Handled? && !delivered(|replies| - 1)))
    ensures forall n :: 0 <= n < |replies| - 1 ==> !replies[n].Subscribed? && (replies[n].Handled? ==> delivered(n))
    ensures forall i, j :: 0 <= i < j < |asked| ==> asked[i] < asked[j]
  {
    replies, asked := [], [];
    var granted: set<Permission> := {};
    for i := 0 to |requests|
      invariant |replies| == i
      invariant forall n :: 0 <= n < i ==> replies[n] == ReplyTo(requests, allow, n) && !replies[n].Subscribed?
      invariant forall n :: 0 <= n < i && replies[n].Handled? ==> delivered(n)
      invariant forall k :: 0 <= k < |asked| ==> asked[k] < i
      invariant forall k, l :: 0 <= k < l < |asked| ==> asked[k] < asked[l]
      invariant forall n :: n in asked <==> 0 <= n < i && Asked(requests, allow, n)
      invariant granted == Granted(requests, allow, i)
    {
      var request := requests[i];
      var action := PermissionFor(request);
      if action.None? {
        replies := replies + [UnknownMethod(request.id)];
        continue;
      }
      if action.value !in granted {
        asked := asked + [i];
        if !allow(i) {
          replies := replies + [Unauthorized(request.id)];
          continue;
        }
        granted := granted + {action.value};
      }
      if request.name == "subscribe" {
        replies := replies + [Subscribed(request.id)];
        return;
      }
      replies := replies + [Handled(request.id)];
      if !delivered(i) {
        return;
      }
    }
  }

  /** The authorizer said yes to this permission while request `k` was served. */
  predicate GrantedAt(requests: seq<Request>, allow: Authorizer, k: nat, p: Permission) {
    k < |requests| && PermissionFor(requests[k]) == Some(p) && Asked(requests, allow, k) && allow(k)
  }

  lemma {:induction false} GrantedExactly(requests: seq<Request>, allow: Authorizer, n: nat, p: Permission)
    requires n <= |requests|
    ensures p in Granted(requests, allow, n) <==> exists k: nat :: k < n && GrantedAt(requests, allow, k, p)
    decreases n
  {
    if n > 0 {
      GrantedExactly(requests, allow, n - 1, p);
      if p in Granted(requests, allow, n) && p !in Granted(requests, allow, n - 1) {
        assert GrantedAt(requests, allow, n - 1, p);
      }
    }
  }

  lemma {:induction false} GrantedGrows(requests: seq<Request>, allow: Authorizer, k: nat, n: nat)
    requires k <= n <= |requests|
    ensures Granted(requests, allow, k) <= Granted(requests, allow, n)
    decreases n
  {
    if k < n {
      GrantedGrows(requests, allow, k, n - 1);
    }
  }

  /** A request is handled or subscribed exactly when its permission was granted, now or earlier on the connection. */
  lemma HandledExactlyWhenGranted(requests: seq<Request>, allow: Authorizer, n: nat, p: Permission)
    requires n < |requests| && PermissionFor(requests[n]) == Some(p)
    ensures !ReplyTo(requests, allow, n).Unauthorized? <==>
            exists k: nat :: k <= n && GrantedAt(requests, allow, k, p)
  {
    GrantedExactly(requests, allow, n, p);
    if p !in Granted(requests, allow, n) && allow(n) {
      assert GrantedAt(requests, allow, n, p);
    }
  }

  /** Once granted, a permission is not asked for again on the connection. */
  lemma NotAskedTwice(requests: seq<Request>, allow: Authorizer, k: nat, n: nat, p: Permission)
    requires k < n < |requests| && GrantedAt(requests, allow, k, p) && PermissionFor(requests[n]) == Some(p)
    ensures !Asked(requests, allow, n)
  {
    GrantedGrows(requests, allow, k + 1, n);
  }

  // ------------------------------------------------------ the replies, spelt out

  /** A request for the same permission, up to this one, that the authorizer would allow. */
  predicate AllowedAt(requests: seq<Request>, allow: Authorizer, n: nat, k: nat)
    requires n < |requests|
  {
    k <= n && PermissionFor(requests[k]) == PermissionFor(requests[n]) && allow(k)
  }

  lemma {:induction false} GrantedOnceAllowed(requests: seq<Request>, allow: Authorizer, k: nat, n: nat, p: Permission)
    requires k < n <= |requests| && PermissionFor(requests[k]) == Some(p) && allow(k)
    ensures p in Granted(requests, allow, n)
    decreases n
  {
    if k < n - 1 {
      GrantedOnceAllowed(requests, allow, k, n - 1, p);
    }
  }

  /**
    What a request is answered: an unknown method and a permission that was never allowed are refused, a
    subscription ends the dialogue, and everything else is handled; each reply carries the request's id.
   */
  lemma RepliesAre(requests: seq<Request>, allow: Authorizer, n: nat)
    requires n < |requests|
    ensures
      var request, reply := requests[n], ReplyTo(requests, allow, n);
      && reply.id == request.id
      && (reply.UnknownMethod? <==> PermissionFor(request) == None)
      && (reply.Unauthorized? <==>
          PermissionFor(request) != None && forall k: nat :: k <= n ==> !AllowedAt(requests, allow, n, k))
      && (reply.Subscribed? <==>
          PermissionFor(request) != None && request.name == "subscribe" &&
          exists k: nat :: k <= n && AllowedAt(requests, allow, n, k))
  {
    if PermissionFor(requests[n]).Some? {
      var p := PermissionFor(requests[n]).value;
      HandledExactlyWhenGranted(requests, allow, n, p);
      if k: nat :| k <= n && AllowedAt(requests, allow, n, k) {
        if k < n {
          GrantedOnceAllowed(requests, allow, k, n, p);
        }
        assert !ReplyTo(requests, allow, n).Unauthorized?;
      }
      if k: nat :| k <= n && GrantedAt(requests, allow, k, p) {
        assert AllowedAt(requests, allow, n, k);
      }
    }
  }

  /** Which methods need which permission. */
  lemma PermissionsAre(request: Request)
    ensures PermissionFor(request) == Some(RunPermission) <==> request.name == "run_job" || request.name == "cancel"
    ensures PermissionFor(request) == Some(ConfigurePermission) <==>
            request.name == "save_config" || request.name == "import_legacy" || request.name == "init_repo"
    ensures PermissionFor(request) == Some(RestorePermission) <==>
            || request.name == "extract" || request.name == "mount" || request.name == "umount"
            || request.name == "delete_archive"
    ensures PermissionFor(request) == Some(StatusPermission) <==>
            || request.name == "ping" || request.name == "get_status" || request.name == "get_config"
            || request.name == "get_logs" || request.name == "list_archives" || request.name == "list_volumes"
            || request.name == "archive_info" || request.name == "subscribe"
  {}
}
