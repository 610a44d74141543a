/** Authority packets: building one for a descriptor and verifying it against that descriptor
    (runtime_lab/authority/packet.py, runtime_lab/authority/verify.py). */
module Authority {
  import opened Json
  import opened HashChain
  import opened Sorting

  // ---------------------------------------------------------------- ordering

  /** String order by code point. */
  predicate StringLe(a: string, b: string) {
    a == "" || (b != "" && (a[0] < b[0] || (a[0] == b[0] && StringLe(a[1..], b[1..]))))
  }

  datatype Artifact = Artifact(artifactClass: string, logicalPath: string)

  /** Tuple order of `(artifact_class, logical_path)`. */
  predicate ArtifactLe(a: Artifact, b: Artifact) {
    if a.artifactClass == b.artifactClass then StringLe(a.logicalPath, b.logicalPath)
    else StringLe(a.artifactClass, b.artifactClass)
  }

  lemma {:induction false} StringOrder(a: string, b: string, c: string)
    ensures StringLe(a, a)
    ensures StringLe(a, b) || StringLe(b, a)
    ensures StringLe(a, b) && StringLe(b, a) ==> a == b
    ensures StringLe(a, b) && StringLe(b, c) ==> StringLe(a, c)
  {
    if a != "" {
      StringOrder(a[1..], if b == "" then "" else b[1..], if c == "" then "" else c[1..]);
      if b != "" && a[0] == b[0] && a[1..] == b[1..] {
        assert a == [a[0]] + a[1..] && b == [b[0]] + b[1..];
      }
    }
  }

  lemma {:induction false} ArtifactOrder(a: Artifact, b: Artifact, c: Artifact)
    ensures ArtifactLe(a, b) || ArtifactLe(b, a)
    ensures ArtifactLe(a, b) && ArtifactLe(b, a) ==> a == b
    ensures ArtifactLe(a, b) && ArtifactLe(b, c) ==> ArtifactLe(a, c)
  {
    StringOrder(a.artifactClass, b.artifactClass, c.artifactClass);
    StringOrder(b.artifactClass, a.artifactClass, c.artifactClass);
    StringOrder(a.logicalPath, b.logicalPath, c.logicalPath);
    StringOrder(b.logicalPath, a.logicalPath, c.logicalPath);
    StringOrder(a.artifactClass, c.artifactClass, b.artifactClass);
    StringOrder(b.artifactClass, c.artifactClass, a.artifactClass);
  }

  lemma {:induction false} OrdersAreTotal()
    ensures TotalOrder(StringLe) && TotalOrder(ArtifactLe)
  {
    forall a, b, c
      ensures StringLe(a, b) || StringLe(b, a)
      ensures StringLe(a, b) && StringLe(b, a) ==> a == b
      ensures StringLe(a, b) && StringLe(b, c) ==> StringLe(a, c)
    {
      StringOrder(a, b, c);
    }
    forall a, b, c
      ensures ArtifactLe(a, b) || ArtifactLe(b, a)
      ensures ArtifactLe(a, b) && ArtifactLe(b, a) ==> a == b
      ensures ArtifactLe(a, b) && ArtifactLe(b, c) ==> ArtifactLe(a, c)
    {
      ArtifactOrder(a, b, c);
    }
  }

  function SortArtifacts(xs: seq<Artifact>): (r: seq<Artifact>)
    ensures multiset(r) == multiset(xs)
  {
    Sort(xs, ArtifactLe)
  }

  function SortStrings(xs: seq<string>): (r: seq<string>)
    ensures multiset(r) == multiset(xs)
  {
    Sort(xs, StringLe)
  }

  /** What the sorted lists are compared for. */
  lemma {:induction false} SortedListsAgree(xs: seq<Artifact>, ys: seq<Artifact>, roots: seq<string>,
                                            others: seq<string>)
    ensures SortArtifacts(xs) == SortArtifacts(ys) <==> multiset(xs) == multiset(ys)
    ensures SortStrings(roots) == SortStrings(others) <==> multiset(roots) == multiset(others)
  {
    OrdersAreTotal();
    SortEqualIffPermutation(xs, ys, ArtifactLe);
    SortEqualIffPermutation(roots, others, StringLe);
  }

  // ---------------------------------------------------------------- reading artifacts and roots

  /** The items that are objects with a string class and a string path. */
  predicate IsArtifact(j: Json) {
    j.Obj? && Get(j.fields, "artifact_class").Str? && Get(j.fields, "logical_path").Str?
  }

  /** The artifacts of a list, in list order; other items are skipped. */
  function ReadArtifacts(items: seq<Json>): seq<Artifact> {
    if items == [] then [] else
    var n := |items| - 1;
    ReadArtifacts(items[..n]) +
    (if IsArtifact(items[n]) then
       [Artifact(Get(items[n].fields, "artifact_class").s, Get(items[n].fields, "logical_path").s)]
     else [])
  }

  /** The item is an object with this class and this path, whatever else it has. */
  predicate Shows(j: Json, artifactClass: string, logicalPath: string) {
    && j.Obj? && Get(j.fields, "artifact_class") == Str(artifactClass)
    && Get(j.fields, "logical_path") == Str(logicalPath)
  }

  /** How many items of the list show this class and this path. */
  function Count(items: seq<Json>, artifactClass: string, logicalPath: string): nat {
    if items == [] then 0
    else (if Shows(items[0], artifactClass, logicalPath) then 1 else 0) + Count(items[1..], artifactClass, logicalPath)
  }

  /** The lists show every class and path equally often. */
  ghost predicate ShowTheSame(xs: seq<Json>, ys: seq<Json>) {
    forall c, p :: Count(xs, c, p) == Count(ys, c, p)
  }

  lemma {:induction false} CountSnoc(items: seq<Json>, c: string, p: string)
    requires items != []
    ensures Count(items, c, p) == Count(items[..|items| - 1], c, p) + if Shows(items[|items| - 1], c, p) then 1 else 0
  {
    if |items| > 1 {
      assert items[..|items| - 1][1..] == items[1..][..|items| - 2];
      CountSnoc(items[1..], c, p);
    }
  }

  /** What is read of a list is what its items show, as often as they show it. */
  lemma {:induction false} ReadAsShown(items: seq<Json>, c: string, p: string)
    ensures multiset(ReadArtifacts(items))[Artifact(c, p)] == Count(items, c, p)
  {
    if items != [] {
      var n := |items| - 1;
      CountSnoc(items, c, p);
      ReadAsShown(items[..n], c, p);
    }
  }

  lemma {:induction false} SameReadIffShowTheSame(xs: seq<Json>, ys: seq<Json>)
    ensures multiset(ReadArtifacts(xs)) == multiset(ReadArtifacts(ys)) <==> ShowTheSame(xs, ys)
  {
    var a, b := multiset(ReadArtifacts(xs)), multiset(ReadArtifacts(ys));
    forall c, p ensures a[Artifact(c, p)] == Count(xs, c, p) && b[Artifact(c, p)] == Count(ys, c, p) {
      ReadAsShown(xs, c, p);
      ReadAsShown(ys, c, p);
    }
    if ShowTheSame(xs, ys) {
      forall x: Artifact ensures a[x] == b[x] {
        assert x == Artifact(x.artifactClass, x.logicalPath);
      }
    }
  }

  /** The objects that these artifacts are written as. */
  function Written(xs: seq<Artifact>): seq<Json> {
    seq(|xs|, i requires 0 <= i < |xs| =>
      Obj(map["artifact_class" := Str(xs[i].artifactClass), "logical_path" := Str(xs[i].logicalPath)]))
  }

  /** Written artifacts are read back in order, and items of another shape are skipped. */
  lemma {:induction false} ReadsWritten(xs: seq<Artifact>, items: seq<Json>, j: Json)
    ensures ReadArtifacts(Written(xs)) == xs
    ensures !IsArtifact(j) ==> ReadArtifacts(items + [j]) == ReadArtifacts(items)
  {
    assert (items + [j])[..|items|] == items;
    if xs != [] {
      var n := |xs| - 1;
      ReadsWritten(xs[..n], items, j);
      assert Written(xs)[..n] == Written(xs[..n]);
    }
  }

  /** The loop shared by `_payload_artifacts` and `_packet_artifacts`. */
  method CollectArtifacts(items: seq<Json>) returns (normalized: seq<Artifact>)
    ensures normalized == SortArtifacts(ReadArtifacts(items))
    ensures Sorted(normalized, ArtifactLe)
    ensures forall c, p :: multiset(normalized)[Artifact(c, p)] == Count(items, c, p)
  {
    normalized := [];
    for i := 0 to |items|
      invariant normalized == ReadArtifacts(items[..i])
    {
      assert items[..i + 1][..i] == items[..i];
      if IsArtifact(items[i]) {
        normalized := normalized +
          [Artifact(Get(items[i].fields, "artifact_class").s, Get(items[i].fields, "logical_path").s)];
      }
    }
    assert items[..|items|] == items;
    OrdersAreTotal();
    SortIsSorted(normalized, ArtifactLe);
    normalized := SortArtifacts(normalized);
    forall c, p ensures multiset(normalized)[Artifact(c, p)] == Count(items, c, p) {
      ReadAsShown(items, c, p);
    }
  }

  function Items(j: Json): seq<Json> {
    if j.List? then j.items else []
  }

  function Sub(o: Object, key: string): Object {
    if Get(o, key).Obj? then Get(o, key).fields else map[]
  }

  function PayloadArtifacts(payload: Object): seq<Artifact> {
    ReadArtifacts(Items(Get(payload, "artifact_expectation")))
  }

  function PacketArtifacts(packet: Object): seq<Artifact> {
    ReadArtifacts(Items(Get(Sub(packet, "artifact_binding"), "expected_artifacts")))
  }

  /** The strings of a list, in list order. */
  function ReadStrings(items: seq<Json>): seq<string> {
    if items == [] then [] else
    (if items[0].Str? then [items[0].s] else []) + ReadStrings(items[1..])
  }

  function PayloadRoots(payload: Object): seq<string> {
    ReadStrings(Items(Get(Sub(payload, "workspace_boundary"), "allowed_roots")))
  }

  function PacketRoots(packet: Object): seq<string> {
    ReadStrings(Items(Get(Sub(packet, "workspace_binding"), "allowed_roots")))
  }

  function TaskId(payload: Object): string {
    if Get(Sub(payload, "task_ref"), "task_id").Str? then Get(Sub(payload, "task_ref"), "task_id").s else ""
  }

  lemma {:induction false} ReadStringsOfStrList(xs: seq<string>)
    ensures ReadStrings(StrList(xs).items) == xs
  {
    if xs != [] {
      assert StrList(xs).items[1..] == StrList(xs[1..]).items;
      ReadStringsOfStrList(xs[1..]);
    }
  }

  /** The lists hold every string equally often. */
  ghost predicate HoldTheSame(xs: seq<Json>, ys: seq<Json>) {
    forall root: string :: multiset(xs)[Str(root)] == multiset(ys)[Str(root)]
  }

  lemma {:induction false} StringsReadAsHeld(items: seq<Json>, root: string)
    ensures multiset(ReadStrings(items))[root] == multiset(items)[Str(root)]
  {
    if items != [] {
      StringsReadAsHeld(items[1..], root);
      assert items == [items[0]] + items[1..];
    }
  }

  lemma {:induction false} SameStringsIffHoldTheSame(xs: seq<Json>, ys: seq<Json>)
    ensures multiset(ReadStrings(xs)) == multiset(ReadStrings(ys)) <==> HoldTheSame(xs, ys)
  {
    forall root: string
      ensures multiset(ReadStrings(xs))[root] == multiset(xs)[Str(root)]
      ensures multiset(ReadStrings(ys))[root] == multiset(ys)[Str(root)]
    {
      StringsReadAsHeld(xs, root);
      StringsReadAsHeld(ys, root);
    }
    if HoldTheSame(xs, ys) {
      forall root: string ensures multiset(ReadStrings(xs))[root] == multiset(ReadStrings(ys))[root] {
        assert multiset(xs)[Str(root)] == multiset(ys)[Str(root)];
      }
    }
  }

  // ---------------------------------------------------------------- building

  const CURRENT_EPOCH: string := "r114-local-epoch"

  function AllowedCapability(): Json {
    Obj(map["capability" := Str("admission.evaluate"), "scope" := Str("descriptor_intake_only")])
  }

  function GovernanceRef(payload: Object): Json {
    if Get(payload, "governance_requirements").Obj? then
      (var g := Get(payload, "governance_requirements").fields;
       if "decision_ref" in g then g["decision_ref"] else Str(""))
    else Str("")
  }

  /** The packet before it is hashed, with every argument but the artifact list at its default. */
  function PacketBody(payload: Object, descriptorHash: string, artifacts: seq<Json>): Object {
    map[
      "schema_version" := Str("authority_packet.v1"),
      "issuer" := Obj(map["identity_id" := Str("governance:runtime_lab"), "role" := Str("governance_authority")]),
      "subject" := Obj(map["actor_id" := Str("actor:local_runtime"), "actor_type" := Str("runtime_actor")]),
      "task_binding" := Obj(map["task_id" := Str(TaskId(payload)), "descriptor_hash" := Str(descriptorHash)]),
      "governance_binding" := Obj(map["decision_ref" := GovernanceRef(payload), "policy_epoch" := Str("r114")]),
      "workspace_binding" := Obj(map[
        "workspace_ref" := Str("workspace:" + TaskId(payload)), "allowed_roots" := StrList(PayloadRoots(payload))]),
      "artifact_binding" := Obj(map["expected_artifacts" := List(artifacts)]),
      "capability_grants" := List([AllowedCapability()]),
      "not_before" := Str(CURRENT_EPOCH),
      "expires_at" := Null]
  }

  function RemovePrefix(s: string, prefix: string): string {
    if prefix <= s then s[|prefix|..] else s
  }

  function PacketId(payloadHash: string): string {
    var hex := RemovePrefix(payloadHash, "sha256:");
    "authpkt_" + (if |hex| <= 16 then hex else hex[..16])
  }

  /** `_complete_packet_hash` */
  function Complete(body: Object, hash: Hash): Object {
    var payloadHash := hash(body - {"packet_id", "payload_hash"});
    body["packet_id" := Str(PacketId(payloadHash))]["payload_hash" := Str(payloadHash)]
  }

  /** `build_authority_packet`, given the descriptor's hash. */
  function BuildPacket(payload: Object, descriptorHash: string, artifacts: seq<Json>, hash: Hash): Object {
    Complete(PacketBody(payload, descriptorHash, artifacts), hash)
  }

  // ---------------------------------------------------------------- verifying

  datatype Verdict =
    | PacketAccepted | Malformed | HashMismatch | ForgedIdentity | StaleOrNotYetValid
    | DescriptorHashMismatch | TaskBindingMismatch | CapabilityNotGranted | CapabilityEscalation
    | WorkspaceScopeMismatch | ArtifactScopeMismatch

  const REQUIRED_FIELDS: set<string> := {
    "schema_version", "packet_id", "issuer", "subject", "task_binding", "governance_binding",
    "workspace_binding", "artifact_binding", "capability_grants", "payload_hash"}

  predicate HashMatches(packet: Object, hash: Hash) {
    var expected := hash(packet - {"packet_id", "payload_hash"});
    Get(packet, "payload_hash") == Str(expected) && Get(packet, "packet_id") == Str(PacketId(expected))
  }

  function CapabilityVerdict(packet: Object): Verdict {
    var grants := Get(packet, "capability_grants");
    if !grants.List? || AllowedCapability() !in grants.items then CapabilityNotGranted
    else if exists i :: 0 <= i < |grants.items| && grants.items[i].Obj? && grants.items[i] != AllowedCapability()
    then CapabilityEscalation
    else PacketAccepted
  }

  /** `verify_authority_packet`: the first failing check decides. */
  method VerifyAuthorityPacket(packet: Object, payload: Object, descriptorHash: string, hash: Hash) returns (v: Verdict)
    ensures v == PacketVerdict(packet, payload, descriptorHash, hash)
    ensures v == PacketAccepted <==> PacketBinds(packet, payload, descriptorHash, hash)
  {
    AcceptedIffBinds(packet, payload, descriptorHash, hash);
    v := HeaderVerdict(packet, payload, descriptorHash, hash);
    if v != PacketAccepted {
      return;
    }
    if SortStrings(PacketRoots(packet)) != SortStrings(PayloadRoots(payload)) {
      return WorkspaceScopeMismatch;
    }
    var packetArtifacts := CollectArtifacts(Items(Get(Sub(packet, "artifact_binding"), "expected_artifacts")));
    var payloadArtifacts := CollectArtifacts(Items(Get(payload, "artifact_expectation")));
    if packetArtifacts != payloadArtifacts {
      return ArtifactScopeMismatch;
    }
    v := PacketAccepted;
  }

  /** The checks before the scopes are compared. */
  function HeaderVerdict(packet: Object, payload: Object, descriptorHash: string, hash: Hash): Verdict {
    if !(REQUIRED_FIELDS <= packet.Keys) then Malformed
    else if !HashMatches(packet, hash) then HashMismatch
    else if !Get(packet, "issuer").Obj? || !Get(packet, "subject").Obj? then Malformed
    else
      var issuer, subject := Get(packet, "issuer").fields, Get(packet, "subject").fields;
      if Get(issuer, "identity_id") != Str("governance:runtime_lab") ||
          Get(issuer, "role") != Str("governance_authority")
      then ForgedIdentity
      else if Get(subject, "actor_id") != Str("actor:local_runtime") ||
          Get(subject, "actor_type") != Str("runtime_actor")
      then ForgedIdentity
      else if Get(packet, "not_before") !in {Null, Str(CURRENT_EPOCH)} ||
          Get(packet, "expires_at") !in {Null, Str(CURRENT_EPOCH)}
      then StaleOrNotYetValid
      else if !Get(packet, "task_binding").Obj? then Malformed
      else if Get(Get(packet, "task_binding").fields, "descriptor_hash") != Str(descriptorHash)
          then DescriptorHashMismatch
      else if Get(Get(packet, "task_binding").fields, "task_id") != Str(TaskId(payload)) then TaskBindingMismatch
      else CapabilityVerdict(packet)
  }

  function PacketVerdict(packet: Object, payload: Object, descriptorHash: string, hash: Hash): Verdict {
    var header := HeaderVerdict(packet, payload, descriptorHash, hash);
    if header != PacketAccepted then header
    else if SortStrings(PacketRoots(packet)) != SortStrings(PayloadRoots(payload)) then WorkspaceScopeMismatch
    else if SortArtifacts(PacketArtifacts(packet)) != SortArtifacts(PayloadArtifacts(payload))
        then ArtifactScopeMismatch
    else PacketAccepted
  }

  // ---------------------------------------------------------------- what acceptance means

  /** The packet carries its own hash, names the one issuer, subject and epoch, grants the one capability
      and nothing else, and is bound to this descriptor, its task, its roots and its artifacts, in whatever
      order they are listed. */
  ghost predicate PacketBinds(packet: Object, payload: Object, descriptorHash: string, hash: Hash) {
    && HeaderBinds(packet, payload, descriptorHash, hash)
    && HoldTheSame(Items(Get(Sub(packet, "workspace_binding"), "allowed_roots")),
                   Items(Get(Sub(payload, "workspace_boundary"), "allowed_roots")))
    && ShowTheSame(Items(Get(Sub(packet, "artifact_binding"), "expected_artifacts")),
                   Items(Get(payload, "artifact_expectation")))
  }

  predicate HeaderBinds(packet: Object, payload: Object, descriptorHash: string, hash: Hash) {
    && {"schema_version", "packet_id", "issuer", "subject", "task_binding", "governance_binding", "workspace_binding",
        "artifact_binding", "capability_grants", "payload_hash"} <= packet.Keys
    && NamesItsHash(packet, hash(packet - {"packet_id", "payload_hash"}))
    && FieldIs(packet, "issuer", "identity_id", Str("governance:runtime_lab"))
    && FieldIs(packet, "issuer", "role", Str("governance_authority"))
    && FieldIs(packet, "subject", "actor_id", Str("actor:local_runtime"))
    && FieldIs(packet, "subject", "actor_type", Str("runtime_actor"))
    && Get(packet, "not_before") in {Null, Str("r114-local-epoch")}
    && Get(packet, "expires_at") in {Null, Str("r114-local-epoch")}
    && FieldIs(packet, "task_binding", "descriptor_hash", Str(descriptorHash))
    && FieldIs(packet, "task_binding", "task_id",
               var named := Get(Sub(payload, "task_ref"), "task_id"); if named.Str? then named else Str(""))
    && GrantsOnlyAllowed(Get(packet, "capability_grants"))
  }

  /** The packet names its hash, and its id is made of the first 16 characters behind the prefix. */
  predicate NamesItsHash(packet: Object, payloadHash: string) {
    && Get(packet, "payload_hash") == Str(payloadHash)
    && Get(packet, "packet_id").Str?
    && var id := Get(packet, "packet_id").s;
      if "sha256:" <= payloadHash && |payloadHash| >= 23 then id == "authpkt_" + payloadHash[7..23]
      else id == PacketId(payloadHash)
  }

  lemma {:induction false} NamesIffMatches(packet: Object, hash: Hash)
    ensures NamesItsHash(packet, hash(packet - {"packet_id", "payload_hash"})) <==> HashMatches(packet, hash)
  {
    var h := hash(packet - {"packet_id", "payload_hash"});
    if "sha256:" <= h && |h| >= 23 {
      assert |"sha256:"| == 7 && h[7..][..16] == h[7..23];
    }
  }

  /** The sub-object's field has this value. */
  predicate FieldIs(o: Object, part: string, field: string, value: Json) {
    Get(o, part).Obj? && Get(Get(o, part).fields, field) == value
  }

  predicate GrantsOnlyAllowed(grants: Json) {
    && grants.List? && Obj(map["capability" := Str("admission.evaluate"), "scope" := Str("descriptor_intake_only")])
      in grants.items
    && forall i :: 0 <= i < |grants.items| && grants.items[i].Obj? ==>
      grants.items[i] == Obj(map["capability" := Str("admission.evaluate"), "scope" := Str("descriptor_intake_only")])
  }

  lemma {:induction false} GrantsIff(packet: Object)
    ensures CapabilityVerdict(packet) == PacketAccepted <==> GrantsOnlyAllowed(Get(packet, "capability_grants"))
  {
  }

  lemma {:induction false} HeaderAcceptedIffBinds(packet: Object, payload: Object, descriptorHash: string, hash: Hash)
    ensures HeaderVerdict(packet, payload, descriptorHash, hash) == PacketAccepted
      <==> HeaderBinds(packet, payload, descriptorHash, hash)
  {
    GrantsIff(packet);
    NamesIffMatches(packet, hash);
  }

  lemma {:induction false} AcceptedIffBinds(packet: Object, payload: Object, descriptorHash: string, hash: Hash)
    ensures PacketVerdict(packet, payload, descriptorHash, hash) == PacketAccepted
      <==> PacketBinds(packet, payload, descriptorHash, hash)
  {
    HeaderAcceptedIffBinds(packet, payload, descriptorHash, hash);
    ScopesAgreeIff(packet, payload);
  }

  /** The packet has the fault that this refusal names. */
  ghost predicate VerdictFault(packet: Object, payload: Object, descriptorHash: string, hash: Hash, v: Verdict) {
    match v
    case PacketAccepted => true
    case Malformed =>
      || !(REQUIRED_FIELDS <= packet.Keys) || !Get(packet, "issuer").Obj? || !Get(packet, "subject").Obj?
      || !Get(packet, "task_binding").Obj?
    case HashMismatch => !NamesItsHash(packet, hash(packet - {"packet_id", "payload_hash"}))
    case ForgedIdentity =>
      || !FieldIs(packet, "issuer", "identity_id", Str("governance:runtime_lab"))
      || !FieldIs(packet, "issuer", "role", Str("governance_authority"))
      || !FieldIs(packet, "subject", "actor_id", Str("actor:local_runtime"))
      || !FieldIs(packet, "subject", "actor_type", Str("runtime_actor"))
    case StaleOrNotYetValid =>
      || Get(packet, "not_before") !in {Null, Str("r114-local-epoch")}
      || Get(packet, "expires_at") !in {Null, Str("r114-local-epoch")}
    case DescriptorHashMismatch => !FieldIs(packet, "task_binding", "descriptor_hash", Str(descriptorHash))
    case TaskBindingMismatch => Get(Sub(packet, "task_binding"), "task_id") != Str(TaskId(payload))
    case CapabilityNotGranted => !GrantsAllowed(Get(packet, "capability_grants"))
    case CapabilityEscalation => GrantsMore(Get(packet, "capability_grants"))
    case WorkspaceScopeMismatch =>
      !HoldTheSame(Items(Get(Sub(packet, "workspace_binding"), "allowed_roots")),
                   Items(Get(Sub(payload, "workspace_boundary"), "allowed_roots")))
    case ArtifactScopeMismatch =>
      !ShowTheSame(Items(Get(Sub(packet, "artifact_binding"), "expected_artifacts")),
                   Items(Get(payload, "artifact_expectation")))
  }

  predicate GrantsAllowed(grants: Json) {
    grants.List? && AllowedCapability() in grants.items
  }

  predicate GrantsMore(grants: Json) {
    && grants.List?
    && exists i :: 0 <= i < |grants.items| && grants.items[i].Obj? && grants.items[i] != AllowedCapability()
  }

  /** A refusal names a fault that the packet has. */
  lemma {:induction false} RefusalIsTrue(packet: Object, payload: Object, descriptorHash: string, hash: Hash)
    ensures VerdictFault(packet, payload, descriptorHash, hash, PacketVerdict(packet, payload, descriptorHash, hash))
  {
    HeaderRefusalIsTrue(packet, payload, descriptorHash, hash, HeaderVerdict(packet, payload, descriptorHash, hash));
    ScopesAgreeIff(packet, payload);
  }

  lemma {:induction false} HeaderRefusalIsTrue(packet: Object, payload: Object, descriptorHash: string, hash: Hash,
                                               v: Verdict)
    requires v == HeaderVerdict(packet, payload, descriptorHash, hash)
    ensures VerdictFault(packet, payload, descriptorHash, hash, v)
  {
    NamesIffMatches(packet, hash);
    CapabilityRefusalIsTrue(packet);
    if v == ForgedIdentity {
      assert Get(packet, "issuer").Obj? && Get(packet, "subject").Obj?;
    }
  }

  lemma {:induction false} CapabilityRefusalIsTrue(packet: Object)
    ensures var v, grants := CapabilityVerdict(packet), Get(packet, "capability_grants");
      && v in {PacketAccepted, CapabilityNotGranted, CapabilityEscalation}
      && (v == CapabilityNotGranted ==> !GrantsAllowed(grants)) && (v == CapabilityEscalation ==> GrantsMore(grants))
  {
  }

  lemma {:induction false} ScopesAgreeIff(packet: Object, payload: Object)
    ensures SortStrings(PacketRoots(packet)) == SortStrings(PayloadRoots(payload)) <==>
      HoldTheSame(Items(Get(Sub(packet, "workspace_binding"), "allowed_roots")),
                  Items(Get(Sub(payload, "workspace_boundary"), "allowed_roots")))
    ensures SortArtifacts(PacketArtifacts(packet)) == SortArtifacts(PayloadArtifacts(payload)) <==>
      ShowTheSame(Items(Get(Sub(packet, "artifact_binding"), "expected_artifacts")),
                  Items(Get(payload, "artifact_expectation")))
  {
    SortedListsAgree(PacketArtifacts(packet), PayloadArtifacts(payload), PacketRoots(packet), PayloadRoots(payload));
    SameReadIffShowTheSame(Items(Get(Sub(packet, "artifact_binding"), "expected_artifacts")),
                           Items(Get(payload, "artifact_expectation")));
    SameStringsIffHoldTheSame(Items(Get(Sub(packet, "workspace_binding"), "allowed_roots")),
                              Items(Get(Sub(payload, "workspace_boundary"), "allowed_roots")));
  }

  // ---------------------------------------------------------------- the round trip

  lemma {:induction false} CompleteKeepsBody(body: Object, hash: Hash)
    requires "packet_id" !in body && "payload_hash" !in body
    ensures var p := Complete(body, hash);
      && p.Keys == body.Keys + {"packet_id", "payload_hash"}
      && (forall k :: k in body ==> p[k] == body[k])
      && HashMatches(p, hash)
  {
    var p := Complete(body, hash);
    assert p - {"packet_id", "payload_hash"} == body;
    assert body - {"packet_id", "payload_hash"} == body;
    assert "packet_id" != "payload_hash";
  }

  lemma {:induction false} BodyFields(payload: Object, descriptorHash: string, artifacts: seq<Json>)
    ensures var b := PacketBody(payload, descriptorHash, artifacts);
      && "packet_id" !in b && "payload_hash" !in b
      && REQUIRED_FIELDS - {"packet_id", "payload_hash"} <= b.Keys
      && b["issuer"] == Obj(map["identity_id" := Str("governance:runtime_lab"), "role" := Str("governance_authority")])
      && b["subject"] == Obj(map["actor_id" := Str("actor:local_runtime"), "actor_type" := Str("runtime_actor")])
      && b["task_binding"] == Obj(map["task_id" := Str(TaskId(payload)), "descriptor_hash" := Str(descriptorHash)])
      && b["artifact_binding"] == Obj(map["expected_artifacts" := List(artifacts)])
      && b["workspace_binding"].Obj?
      && Get(b["workspace_binding"].fields, "allowed_roots") == StrList(PayloadRoots(payload))
      && b["capability_grants"] == List([AllowedCapability()])
      && "not_before" in b && b["not_before"] == Str(CURRENT_EPOCH) && "expires_at" in b && b["expires_at"] == Null
  {
  }

  lemma {:induction false} IdentitiesAccepted(packet: Object, payload: Object, descriptorHash: string, hash: Hash)
    requires REQUIRED_FIELDS <= packet.Keys && HashMatches(packet, hash)
    requires Get(packet, "issuer") == Obj(map["identity_id" := Str("governance:runtime_lab"),
                                              "role" := Str("governance_authority")])
    requires Get(packet, "subject") == Obj(map["actor_id" := Str("actor:local_runtime"),
                                               "actor_type" := Str("runtime_actor")])
    requires Get(packet, "task_binding") == Obj(map["task_id" := Str(TaskId(payload)),
                                                    "descriptor_hash" := Str(descriptorHash)])
    requires Get(packet, "not_before") == Str(CURRENT_EPOCH) && Get(packet, "expires_at") == Null
    ensures HeaderVerdict(packet, payload, descriptorHash, hash) == CapabilityVerdict(packet)
  {
  }

  lemma {:induction false} OneGrantAccepted(packet: Object)
    requires Get(packet, "capability_grants") == List([AllowedCapability()])
    ensures CapabilityVerdict(packet) == PacketAccepted
  {
    assert [AllowedCapability()][0] == AllowedCapability();
  }

  lemma {:induction false} BuiltHeaderAccepted(payload: Object, descriptorHash: string, artifacts: seq<Json>,
                                               hash: Hash)
    ensures HeaderVerdict(BuildPacket(payload, descriptorHash, artifacts, hash), payload, descriptorHash, hash) ==
      PacketAccepted
  {
    var b := PacketBody(payload, descriptorHash, artifacts);
    var p := BuildPacket(payload, descriptorHash, artifacts, hash);
    BodyFields(payload, descriptorHash, artifacts);
    CompleteKeepsBody(b, hash);
    assert Get(p, "issuer") == b["issuer"] && Get(p, "subject") == b["subject"] &&
      Get(p, "task_binding") == b["task_binding"];
    assert Get(p, "not_before") == b["not_before"] && Get(p, "expires_at") == b["expires_at"];
    assert Get(p, "capability_grants") == b["capability_grants"];
    IdentitiesAccepted(p, payload, descriptorHash, hash);
    OneGrantAccepted(p);
  }

  lemma {:induction false} BuiltScopes(payload: Object, descriptorHash: string, artifacts: seq<Json>, hash: Hash)
    ensures var p := BuildPacket(payload, descriptorHash, artifacts, hash);
      PacketRoots(p) == PayloadRoots(payload) && PacketArtifacts(p) == ReadArtifacts(artifacts)
  {
    var b := PacketBody(payload, descriptorHash, artifacts);
    var p := BuildPacket(payload, descriptorHash, artifacts, hash);
    BodyFields(payload, descriptorHash, artifacts);
    CompleteKeepsBody(b, hash);
    ReadStringsOfStrList(PayloadRoots(payload));
    assert Get(p, "workspace_binding") == b["workspace_binding"];
    assert Get(p, "artifact_binding") == b["artifact_binding"];
  }

  /** A packet built with all defaults but the artifact list verifies exactly when that list is a
      permutation of the descriptor's artifacts, read as (class, path) pairs; otherwise the artifact
      scope is the reason. */
  lemma {:induction false} BuiltPacketVerifiesIffPermutation(payload: Object, descriptorHash: string,
                                                             artifacts: seq<Json>, hash: Hash)
    ensures PacketVerdict(BuildPacket(payload, descriptorHash, artifacts, hash), payload, descriptorHash, hash)
      == if ShowTheSame(artifacts, Items(Get(payload, "artifact_expectation"))) then PacketAccepted
        else ArtifactScopeMismatch
  {
    BuiltHeaderAccepted(payload, descriptorHash, artifacts, hash);
    BuiltScopes(payload, descriptorHash, artifacts, hash);
    SortedListsAgree(ReadArtifacts(artifacts), PayloadArtifacts(payload), PayloadRoots(payload), PayloadRoots(payload));
    SameReadIffShowTheSame(artifacts, Items(Get(payload, "artifact_expectation")));
  }

  /** An accepted packet pins the descriptor: it cannot be accepted for two descriptor hashes, tasks or
      artifact multisets. */
  lemma {:induction false} PacketPinsDescriptor(packet: Object, p: Object, pHash: string, q: Object, qHash: string,
                                                hash: Hash)
    requires PacketVerdict(packet, p, pHash, hash) == PacketAccepted
    requires PacketVerdict(packet, q, qHash, hash) == PacketAccepted
    ensures pHash == qHash && TaskId(p) == TaskId(q)
    ensures ShowTheSame(Items(Get(p, "artifact_expectation")), Items(Get(q, "artifact_expectation")))
  {
    AcceptedNames(packet, p, pHash, hash);
    AcceptedNames(packet, q, qHash, hash);
    var shown := Items(Get(Sub(packet, "artifact_binding"), "expected_artifacts"));
    var one, other := Items(Get(p, "artifact_expectation")), Items(Get(q, "artifact_expectation"));
    forall c, path ensures Count(one, c, path) == Count(other, c, path) {
      assert Count(shown, c, path) == Count(one, c, path) && Count(shown, c, path) == Count(other, c, path);
    }
  }

  lemma {:induction false} AcceptedNames(packet: Object, payload: Object, descriptorHash: string, hash: Hash)
    requires PacketVerdict(packet, payload, descriptorHash, hash) == PacketAccepted
    ensures Get(Sub(packet, "task_binding"), "descriptor_hash") == Str(descriptorHash)
    ensures Get(Sub(packet, "task_binding"), "task_id") == Str(TaskId(payload))
    ensures ShowTheSame(Items(Get(Sub(packet, "artifact_binding"), "expected_artifacts")),
                        Items(Get(payload, "artifact_expectation")))
  {
    AcceptedIffBinds(packet, payload, descriptorHash, hash);
  }
}
