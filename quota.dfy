/**
 * The quota entries of the master's replicated registry and the validation of
 * a quota request (`QuotaInfo`).
 */
module Quota {
  import opened Wrappers
  import opened Resources

  /** A `QuotaInfo`: the role (empty when unset) and the guaranteed resources. */
  datatype QuotaInfo = QuotaInfo(role: string, guarantee: seq<Resource>)

  /** Index of the first entry for `role`, or `|qs|` when there is none. */
  function FirstIndex(qs: seq<QuotaInfo>, role: string): (k: nat)
    ensures k <= |qs|
    ensures k < |qs| ==> qs[k].role == role
    ensures forall j :: 0 <= j < k ==> qs[j].role != role
  {
    if qs == [] then 0
    else if qs[0].role == role then 0
    else 1 + FirstIndex(qs[1..], role)
  }

  /** The registry after `UpdateQuota(info)`: the first entry for the role replaced, or `info` appended. */
  function Upsert(qs: seq<QuotaInfo>, info: QuotaInfo): seq<QuotaInfo>
  {
    var k := FirstIndex(qs, info.role);
    if k < |qs| then qs[k := info] else qs + [info]
  }

  /** The registry after `RemoveQuota(role)`: the first entry for the role deleted. */
  function Removed(qs: seq<QuotaInfo>, role: string): seq<QuotaInfo>
  {
    var k := FirstIndex(qs, role);
    if k < |qs| then qs[..k] + qs[k + 1..] else qs
  }

  /** Some entry is for `role`. */
  predicate HasRole(qs: seq<QuotaInfo>, role: string)
  {
    exists i :: 0 <= i < |qs| && qs[i].role == role
  }

  /** The invariant the registry keeps: at most one entry per role. */
  predicate OnePerRole(qs: seq<QuotaInfo>)
  {
    forall i, j :: 0 <= i < j < |qs| ==> qs[i].role != qs[j].role
  }

  /** The entries for roles other than `role`, in registry order. */
  function Others(qs: seq<QuotaInfo>, role: string): (r: seq<QuotaInfo>)
    ensures forall i :: 0 <= i < |r| ==> r[i].role != role && r[i] in qs
  {
    if qs == [] then []
    else (if qs[0].role == role then [] else [qs[0]]) + Others(qs[1..], role)
  }

  /** The registry entries as the master's registrar holds them. */
  class Registry {
    var quotas: seq<QuotaInfo>

    constructor ()
      ensures quotas == []
    {
      quotas := [];
    }

    /** `UpdateQuota::perform`: overwrite the role's entry in place, or add one at the end. */
    method UpdateQuota(info: QuotaInfo) returns (mutated: bool)
      modifies this
      ensures mutated
      ensures quotas == Upsert(old(quotas), info)
    {
      var existing := -1;
      var i := 0;
      while i < |quotas|
        invariant 0 <= i <= |quotas|
        invariant existing == -1 ==> forall j :: 0 <= j < i ==> quotas[j].role != info.role
        invariant existing != -1 ==> existing == FirstIndex(quotas, info.role)
      {
        if quotas[i].role == info.role {
          existing := i;
          break;
        }
        i := i + 1;
      }
      if existing >= 0 {
        quotas := quotas[existing := info];
      } else {
        quotas := quotas + [info];
      }
      mutated := true;
    }

    /** `RemoveQuota::perform`: delete the first entry for the role; report whether one was found. */
    method RemoveQuota(role: string) returns (changed: bool)
      modifies this
      ensures changed <==> HasRole(old(quotas), role)
      ensures quotas == Removed(old(quotas), role)
    {
      changed := false;
      var i := 0;
      while i < |quotas|
        invariant 0 <= i <= |quotas|
        invariant quotas == old(quotas)
        invariant forall j :: 0 <= j < i ==> quotas[j].role != role
      {
        if quotas[i].role == role {
          quotas := quotas[..i] + quotas[i + 1..];
          changed := true;
          break;
        }
        i := i + 1;
      }
    }
  }

  /** An entry for the role exists exactly when the first-index search stops inside the list. */
  lemma HasRoleFirstIndex(qs: seq<QuotaInfo>, role: string)
    ensures HasRole(qs, role) <==> FirstIndex(qs, role) < |qs|
  {
  }

  /**
   * After an update the registry holds `info`: at the position of the role's
   * first entry with the length unchanged if there was one, appended at the
   * end otherwise.
   */
  lemma UpsertPlacement(qs: seq<QuotaInfo>, info: QuotaInfo)
    ensures info in Upsert(qs, info)
    ensures HasRole(qs, info.role) ==>
      |Upsert(qs, info)| == |qs| && Upsert(qs, info)[FirstIndex(qs, info.role)] == info
    ensures !HasRole(qs, info.role) ==> Upsert(qs, info) == qs + [info]
  {
    HasRoleFirstIndex(qs, info.role);
    var k := FirstIndex(qs, info.role);
    if k < |qs| {
      assert Upsert(qs, info)[k] == info;
    } else {
      assert Upsert(qs, info)[|qs|] == info;
    }
  }

  /** An update leaves the entries of every other role as they were, in order. */
  lemma {:induction false} UpsertKeepsOthers(qs: seq<QuotaInfo>, info: QuotaInfo)
    ensures Others(Upsert(qs, info), info.role) == Others(qs, info.role)
  {
    if qs == [] {
      assert Upsert(qs, info) == [info];
      assert Others([info], info.role) == [] + Others([], info.role);
    } else if qs[0].role == info.role {
      assert Upsert(qs, info) == [info] + qs[1..];
      assert ([info] + qs[1..])[1..] == qs[1..];
    } else {
      UpsertKeepsOthers(qs[1..], info);
      assert Upsert(qs, info) == [qs[0]] + Upsert(qs[1..], info);
      assert ([qs[0]] + Upsert(qs[1..], info))[1..] == Upsert(qs[1..], info);
    }
  }

  /** With at most one entry per role before an update, there is exactly one for the role after it, and still at most one per role. */
  lemma UpsertOnePerRole(qs: seq<QuotaInfo>, info: QuotaInfo)
    requires OnePerRole(qs)
    ensures OnePerRole(Upsert(qs, info))
    ensures forall i :: 0 <= i < |Upsert(qs, info)| && Upsert(qs, info)[i].role == info.role ==> Upsert(qs, info)[i] == info
  {
    HasRoleFirstIndex(qs, info.role);
  }

  /** The role's entry is gone after a removal from a registry with one entry per role, and all other entries stay, in order. */
  lemma {:induction false} RemovedIsOthers(qs: seq<QuotaInfo>, role: string)
    requires OnePerRole(qs)
    ensures Removed(qs, role) == Others(qs, role)
    ensures !HasRole(Removed(qs, role), role)
  {
    if qs != [] {
      var tail := qs[1..];
      assert OnePerRole(tail);
      if qs[0].role == role {
        assert !HasRole(tail, role);
        OthersWithout(tail, role);
        assert Removed(qs, role) == tail;
      } else {
        RemovedIsOthers(tail, role);
        RemovedCons(qs, role);
      }
    }
  }

  /** Removal skips a head entry for another role. */
  lemma RemovedCons(qs: seq<QuotaInfo>, role: string)
    requires qs != [] && qs[0].role != role
    ensures Removed(qs, role) == [qs[0]] + Removed(qs[1..], role)
  {
    var tail := qs[1..];
    var k := FirstIndex(tail, role);
    assert FirstIndex(qs, role) == k + 1;
    if k < |tail| {
      assert qs[..k + 1] == [qs[0]] + tail[..k];
      assert qs[k + 2..] == tail[k + 1..];
    }
  }

  lemma {:induction false} OthersWithout(qs: seq<QuotaInfo>, role: string)
    requires !HasRole(qs, role)
    ensures Others(qs, role) == qs
  {
    if qs != [] {
      OthersWithout(qs[1..], role);
      assert [qs[0]] + qs[1..] == qs;
    }
  }

  /** Entry `i` after deleting entry `k`: an earlier one in place, a later one shifted down. */
  lemma DeletedAt(qs: seq<QuotaInfo>, k: nat, i: nat)
    requires k < |qs| && i < |qs| - 1
    ensures (qs[..k] + qs[k + 1..])[i] == if i < k then qs[i] else qs[i + 1]
  {
  }

  /** Removal keeps the one-entry-per-role invariant. */
  lemma RemovedOnePerRole(qs: seq<QuotaInfo>, role: string)
    requires OnePerRole(qs)
    ensures OnePerRole(Removed(qs, role))
  {
    var k := FirstIndex(qs, role);
    if k < |qs| {
      var r := qs[..k] + qs[k + 1..];
      assert Removed(qs, role) == r;
      assert |r| == |qs| - 1;
      forall i, j | 0 <= i < j < |r| ensures r[i].role != r[j].role {
        var i' := if i < k then i else i + 1;
        var j' := if j < k then j else j + 1;
        DeletedAt(qs, k, i);
        DeletedAt(qs, k, j);
        assert i' < j';
      }
    }
  }

  /**
   * Removal is idempotent: on a registry with one entry per role, a second
   * removal of the same role finds nothing and changes nothing.
   */
  lemma RemoveTwice(qs: seq<QuotaInfo>, role: string)
    requires OnePerRole(qs)
    ensures !HasRole(Removed(qs, role), role)
    ensures Removed(Removed(qs, role), role) == Removed(qs, role)
  {
    RemovedIsOthers(qs, role);
    HasRoleFirstIndex(Removed(qs, role), role);
  }

  /** Why a quota request is refused by `validation::quotaInfo`. */
  datatype QuotaError =
    | InvalidResource(reason: string)
    | HasReservation
    | HasDisk
    | HasRevocable
    | NonScalar
    | NoRole
    | EmptyRole
    | DifferentRoles(reference: string, role: string)

  /**
   * The reference role of a request: its own role when set, otherwise the
   * role of its first resource (empty when there is none).
   */
  function ReferenceRole(info: QuotaInfo): string
  {
    if info.role != "" then info.role
    else if |info.guarantee| > 0 && info.guarantee[0].role.Some? then info.guarantee[0].role.value
    else ""
  }

  /**
   * The first check a single guarantee resource fails, in the order the
   * validator applies them, against reference role `reference` (empty: none
   * yet). `validate` stands for `Resources::validate`.
   */
  function Problem(r: Resource, validate: Resource -> Option<string>, reference: string): Option<QuotaError>
  {
    if validate(r).Some? then Some(InvalidResource(validate(r).value))
    else if r.reservation then Some(HasReservation)
    else if r.disk then Some(HasDisk)
    else if r.revocable then Some(HasRevocable)
    else if r.kind != SCALAR then Some(NonScalar)
    else if r.role.None? then Some(NoRole)
    else if r.role.value == "" then Some(EmptyRole)
    else if reference != "" && reference != r.role.value then Some(DifferentRoles(reference, r.role.value))
    else None
  }

  /**
   * The first problem among the guarantee resources from index `i` on, all
   * checked against the request's reference role.
   */
  function FirstProblemFrom(g: seq<Resource>, validate: Resource -> Option<string>, reference: string, i: nat): (e: Option<QuotaError>)
    requires i <= |g|
    ensures e.None? <==> forall j :: i <= j < |g| ==> Problem(g[j], validate, reference).None?
    ensures e.Some? ==>
      (exists j :: i <= j < |g| &&
        (forall k :: i <= k < j ==> Problem(g[k], validate, reference).None?) &&
        Problem(g[j], validate, reference) == e)
    decreases |g| - i
  {
    if i == |g| then None
    else if Problem(g[i], validate, reference).Some? then Problem(g[i], validate, reference)
    else FirstProblemFrom(g, validate, reference, i + 1)
  }

  /**
   * What `validation::quotaInfo` reports: nothing exactly when every
   * guarantee resource passes every check against the reference role (so an
   * empty guarantee is accepted), otherwise the first failing check of the
   * first failing resource.
   */
  function FirstProblem(info: QuotaInfo, validate: Resource -> Option<string>): Option<QuotaError>
  {
    FirstProblemFrom(info.guarantee, validate, ReferenceRole(info), 0)
  }

  /** `validation::quotaInfo`, scanning the guarantee while it fixes the reference role. */
  method ValidateQuotaInfo(info: QuotaInfo, validate: Resource -> Option<string>) returns (err: Option<QuotaError>)
    ensures err == FirstProblem(info, validate)
  {
    var g := info.guarantee;
    var role := info.role;
    var i := 0;
    while i < |g|
      invariant 0 <= i <= |g|
      invariant forall j :: 0 <= j < i ==> Problem(g[j], validate, ReferenceRole(info)).None?
      invariant FirstProblem(info, validate) == FirstProblemFrom(g, validate, ReferenceRole(info), i)
      invariant role == if i == 0 then info.role else ReferenceRole(info)
    {
      var r := g[i];
      var e := validate(r);
      if e.Some? { return Some(InvalidResource(e.value)); }
      if r.reservation { return Some(HasReservation); }
      if r.disk { return Some(HasDisk); }
      if r.revocable { return Some(HasRevocable); }
      if r.kind != SCALAR { return Some(NonScalar); }
      if r.role.None? { return Some(NoRole); }
      if r.role.value == "" { return Some(EmptyRole); }
      if role == "" {
        role := r.role.value;
      } else if role != r.role.value {
        return Some(DifferentRoles(role, r.role.value));
      }
      i := i + 1;
    }
    return None;
  }

  /** A request without guarantee resources passes validation, whatever its role. */
  lemma EmptyGuaranteeAccepted(role: string, validate: Resource -> Option<string>)
    ensures FirstProblem(QuotaInfo(role, []), validate) == None
  {
  }
}
