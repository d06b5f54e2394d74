/** The environment types and the ordered list of objects that make up each of them. */
module Catalog {
  import opened Kubernetes
  import opened Protocol
  import opened ErrorTexts

  datatype DeploymentType = Ids | Climate | Master | Dummy | Kafka | Spark

  function TypeName(t: DeploymentType): string {
    match t
    case Ids => "ids"
    case Climate => "ipcc"
    case Master => "datasciencehub"
    case Dummy => "dummy"
    case Kafka => "kafka"
    case Spark => "spark"
  }

  function NamespaceFor(t: DeploymentType): string {
    "jupyterhub-" + TypeName(t)
  }

  // Types have the names of the catalogue, and each its own namespace, from which the name can be read back.
  lemma NamespacesAreDistinct(t: DeploymentType, u: DeploymentType)
    ensures NamespaceFor(t) == NamespaceFor(u) <==> t == u
    ensures "jupyterhub-" <= NamespaceFor(t) && NamespaceFor(t)[11..] == TypeName(t)
    ensures TypeName(Ids) == "ids" && TypeName(Climate) == "ipcc" && TypeName(Master) == "datasciencehub"
    ensures TypeName(Dummy) == "dummy" && TypeName(Kafka) == "kafka" && TypeName(Spark) == "spark"
  {
    assert NamespaceFor(t)[11..] == TypeName(t) && NamespaceFor(u)[11..] == TypeName(u);
    assert "dummy"[0] != "kafka"[0] && "dummy"[0] != "spark"[0] && "kafka"[0] != "spark"[0];
    assert |"ids"| == 3 && |"ipcc"| == 4 && |"datasciencehub"| == 14 && |"dummy"| == |"kafka"| == |"spark"| == 5;
  }

  predicate SharedStorage(t: DeploymentType) {
    t == Ids
  }

  const HUB_SECRET := Key(Secret, "hub-secret")
  const HUB_ACCOUNT := Key(ServiceAccount, "hub")
  const HUB_ROLE := Key(Role, "hub")
  const HUB_BINDING := Key(RoleBinding, "hub")
  const HUB_CONFIG := Key(ConfigMap, "hub")
  const HUB_CLAIM := Key(VolumeClaim, "hub-db-dir")
  const PROXY_API := Key(Service, "proxy-api")
  const PROXY_PUBLIC := Key(Service, "proxy-public")
  const HUB_SERVICE := Key(Service, "hub")
  const PROXY_DEPLOYMENT := Key(Deployment, "proxy")
  const HUB_DEPLOYMENT := Key(Deployment, "hub")
  const HUB_INGRESS := Key(Ingress, "jupyterhub")

  function SharedClaim(t: DeploymentType): Key {
    Key(VolumeClaim, TypeName(t) + "-data-shared")
  }

  /** What the hub needs to run: what its manifest names, the services whose variables its configuration
      reads at start, and the shared claim that its configuration mounts in user pods. */
  function HubNeeds(t: DeploymentType): set<Key> {
    {HUB_ACCOUNT, HUB_SECRET, HUB_CONFIG, HUB_CLAIM, PROXY_API, PROXY_PUBLIC, HUB_SERVICE}
    + (if SharedStorage(t) then {SharedClaim(t)} else {})
  }

  function CommonSteps(t: DeploymentType): seq<ProvisionStep> {
    [ ProvisionStep("secret", HUB_SECRET, {}),
      ProvisionStep("service account", HUB_ACCOUNT, {}),
      ProvisionStep("role", HUB_ROLE, {}),
      ProvisionStep("role binding", HUB_BINDING, {HUB_ROLE, HUB_ACCOUNT}),
      ProvisionStep("configmap", HUB_CONFIG, {}),
      ProvisionStep("hub pvc", HUB_CLAIM, {}),
      ProvisionStep("proxy-api service", PROXY_API, {}),
      ProvisionStep("proxy-public service", PROXY_PUBLIC, {}),
      ProvisionStep("hub service", HUB_SERVICE, {}),
      ProvisionStep("proxy deployment", PROXY_DEPLOYMENT, {HUB_SECRET, HUB_SERVICE}),
      ProvisionStep("hub deployment", HUB_DEPLOYMENT, HubNeeds(t)),
      ProvisionStep("ingress", HUB_INGRESS, {PROXY_PUBLIC})
    ]
  }

  // Python's list.insert for an index inside the list.
  function Insert<T>(items: seq<T>, index: nat, item: T): seq<T>
    requires index <= |items|
  {
    items[..index] + [item] + items[index..]
  }

  function EnvironmentSteps(t: DeploymentType): seq<ProvisionStep> {
    if SharedStorage(t)
    then Insert(CommonSteps(t), 6, ProvisionStep("shared pvc", SharedClaim(t), {}))
    else CommonSteps(t)
  }

  function OwnerAnnotation(prefix: string): string {
    prefix + "/created-by"
  }

  function ErrorAnnotation(prefix: string): string {
    prefix + "/provisioning-error"
  }

  function EnvironmentConfig(prefix: string, t: DeploymentType): Config {
    Config(EnvironmentSteps(t), OwnerAnnotation(prefix), ErrorAnnotation(prefix), true, true)
  }

  const KAFKA_SECRET := Key(Secret, "kafka-credentials")
  const KAFKA_ACCOUNT := Key(ServiceAccount, "kafka")
  const KAFKA_HEADLESS := Key(Service, "kafka-headless")
  const KAFKA_EXTERNAL := Key(Service, "kafka-external")
  const KAFKA_SET := Key(StatefulSet, "kafka")

  const KAFKA_STEPS: seq<ProvisionStep> :=
    [ ProvisionStep("secret", KAFKA_SECRET, {}),
      ProvisionStep("service account", KAFKA_ACCOUNT, {}),
      ProvisionStep("service kafka-headless", KAFKA_HEADLESS, {}),
      ProvisionStep("service kafka-external", KAFKA_EXTERNAL, {}),
      ProvisionStep("statefulset", KAFKA_SET, {KAFKA_SECRET, KAFKA_ACCOUNT, KAFKA_HEADLESS})
    ]

  // Kafka has no retry request, and a successful run clears nothing.
  function KafkaConfig(prefix: string): Config {
    Config(KAFKA_STEPS, OwnerAnnotation(prefix), ErrorAnnotation(prefix), false, false)
  }

  // The order of the steps is a topological order of the references between their objects.
  ghost predicate Topological(cfg: Config) {
    forall i, ref :: 0 <= i < |cfg.steps| && ref in cfg.steps[i].refs ==> Earlier(cfg, i, ref)
  }

  ghost predicate Earlier(cfg: Config, i: nat, ref: Key) {
    exists j :: 0 <= j < i && j < |cfg.steps| && cfg.steps[j].key == ref
  }

  // For every prefix setting the owner and the error live under different keys.
  lemma AnnotationsDiffer(prefix: string)
    ensures prefix + "/" <= OwnerAnnotation(prefix) && OwnerAnnotation(prefix)[|prefix| + 1..] == "created-by"
    ensures prefix + "/" <= ErrorAnnotation(prefix) && ErrorAnnotation(prefix)[|prefix| + 1..] == "provisioning-error"
    ensures OwnerAnnotation(prefix) != ErrorAnnotation(prefix)
  {
    assert OwnerAnnotation(prefix) == prefix + "/" + "created-by";
    assert ErrorAnnotation(prefix) == prefix + "/" + "provisioning-error";
    assert |OwnerAnnotation(prefix)| < |ErrorAnnotation(prefix)|;
  }

  // Both kinds of namespaces use them for what they say.
  lemma AnnotationKeys(prefix: string, t: DeploymentType)
    ensures EnvironmentConfig(prefix, t).ownerKey == KafkaConfig(prefix).ownerKey == prefix + "/created-by"
    ensures EnvironmentConfig(prefix, t).errorKey == KafkaConfig(prefix).errorKey == prefix + "/provisioning-error"
  {
  }

  // Where each common object stands in the list; anything else comes after.
  function Rank(key: Key): nat {
    match key.kind
    case Secret => 0
    case ServiceAccount => 1
    case Role => 2
    case RoleBinding => 3
    case ConfigMap => 4
    case VolumeClaim => if key == HUB_CLAIM then 5 else 12
    case Service => if key == PROXY_API then 6 else if key == PROXY_PUBLIC then 7 else 8
    case Deployment => if key == PROXY_DEPLOYMENT then 9 else 10
    case Ingress => 11
    case _ => 12
  }

  lemma CommonRank(t: DeploymentType, i: nat)
    requires i < 12
    ensures Rank(CommonSteps(t)[i].key) == i
    ensures CommonSteps(t)[i].key.kind == VolumeClaim ==> i == 5
  {
    if i < 4 {
      assert i == 0 || i == 1 || i == 2 || i == 3;
    } else if i < 8 {
      assert i == 4 || i == 5 || i == 6 || i == 7;
      assert PROXY_API.name != PROXY_PUBLIC.name;
    } else {
      assert i == 8 || i == 9 || i == 10 || i == 11;
      assert |HUB_DEPLOYMENT.name| != |PROXY_DEPLOYMENT.name|;
      assert |HUB_SERVICE.name| != |PROXY_API.name| && |HUB_SERVICE.name| != |PROXY_PUBLIC.name|;
    }
  }

  // A needed object is the shared claim of the hub deployment, or a common object of a smaller rank.
  lemma CommonRefs(t: DeploymentType, i: nat, ref: Key)
    requires i < 12 && ref in CommonSteps(t)[i].refs
    ensures (i == 10 && SharedStorage(t) && ref == SharedClaim(t))
            || (Rank(ref) < i && CommonSteps(t)[Rank(ref)].key == ref)
  {
    CommonNames();
    if i == 3 {
      assert CommonSteps(t)[i].refs == {HUB_ROLE, HUB_ACCOUNT};
    } else if i == 9 {
      assert CommonSteps(t)[i].refs == {HUB_SECRET, HUB_SERVICE};
    } else if i == 10 {
      assert CommonSteps(t)[i].refs == HubNeeds(t);
    } else {
      assert i == 11 && CommonSteps(t)[i].refs == {PROXY_PUBLIC};
    }
  }

  lemma CommonNames()
    ensures Rank(PROXY_API) == 6 && Rank(PROXY_PUBLIC) == 7 && Rank(HUB_SERVICE) == 8
  {
    assert PROXY_API.name[6] != PROXY_PUBLIC.name[6];
    assert |HUB_SERVICE.name| != |PROXY_API.name| && |HUB_SERVICE.name| != |PROXY_PUBLIC.name|;
  }

  // Where the insertion of the shared claim moves a common step.
  function Position(t: DeploymentType, i: nat): nat {
    if SharedStorage(t) && i >= 6 then i + 1 else i
  }

  lemma StepAt(t: DeploymentType, i: nat)
    requires i < |EnvironmentSteps(t)|
    ensures |EnvironmentSteps(t)| == if SharedStorage(t) then 13 else 12
    ensures SharedStorage(t) && i == 6 ==>
              EnvironmentSteps(t)[i] == ProvisionStep("shared pvc", SharedClaim(t), {})
    ensures !(SharedStorage(t) && i == 6) ==>
              EnvironmentSteps(t)[i] == CommonSteps(t)[if SharedStorage(t) && i > 6 then i - 1 else i]
  {
  }

  lemma EnvironmentWellFormed(prefix: string, t: DeploymentType)
    ensures WellFormed(EnvironmentConfig(prefix, t))
  {
    AnnotationsDiffer(prefix);
    var cfg := EnvironmentConfig(prefix, t);
    StepAt(t, 0);
    forall i, j | 0 <= i < j < |cfg.steps| ensures cfg.steps[i].key != cfg.steps[j].key {
      KeyAt(t, i);
      KeyAt(t, j);
    }
  }

  lemma KeyAt(t: DeploymentType, i: nat)
    requires i < |EnvironmentSteps(t)|
    ensures var key := EnvironmentSteps(t)[i].key;
      if SharedStorage(t) && i == 6 then Rank(key) == 12 else Rank(key) < 12 && Position(t, Rank(key)) == i
  {
    StepAt(t, i);
    if SharedStorage(t) && i == 6 {
      assert |SharedClaim(t).name| == 15;
    } else {
      CommonRank(t, if SharedStorage(t) && i > 6 then i - 1 else i);
    }
  }

  lemma EnvironmentTopological(prefix: string, t: DeploymentType)
    ensures Topological(EnvironmentConfig(prefix, t))
  {
    var cfg := EnvironmentConfig(prefix, t);
    forall i, ref | 0 <= i < |cfg.steps| && ref in cfg.steps[i].refs
      ensures Earlier(cfg, i, ref)
    {
      StepAt(t, i);
      assert !(SharedStorage(t) && i == 6);
      CommonRefs(t, if SharedStorage(t) && i > 6 then i - 1 else i, ref);
      var j := if SharedStorage(t) && ref == SharedClaim(t) then 6 else Position(t, Rank(ref));
      assert |SharedClaim(Ids).name| == 15;
      StepAt(t, j);
      assert cfg.steps[j].key == ref;
    }
  }

  predicate Creates(step: ProvisionStep, name: string, kind: Kind, id: string) {
    step.name == name && step.key == Key(kind, id)
  }

  // The environment of `ids`, step by step: the only one with a shared volume, which its hub refers to.
  lemma IdsSteps()
    ensures var steps := EnvironmentSteps(Ids);
      && |steps| == 13
      && Creates(steps[0], "secret", Secret, "hub-secret")
      && Creates(steps[1], "service account", ServiceAccount, "hub")
      && Creates(steps[2], "role", Role, "hub")
      && Creates(steps[3], "role binding", RoleBinding, "hub")
      && Creates(steps[4], "configmap", ConfigMap, "hub")
      && Creates(steps[5], "hub pvc", VolumeClaim, "hub-db-dir")
      && Creates(steps[6], "shared pvc", VolumeClaim, "ids-data-shared")
      && Creates(steps[7], "proxy-api service", Service, "proxy-api")
      && Creates(steps[8], "proxy-public service", Service, "proxy-public")
      && Creates(steps[9], "hub service", Service, "hub")
      && Creates(steps[10], "proxy deployment", Deployment, "proxy")
      && Creates(steps[11], "hub deployment", Deployment, "hub")
      && Creates(steps[12], "ingress", Ingress, "jupyterhub")
      && Key(VolumeClaim, "ids-data-shared") in steps[11].refs
  {
    StepAt(Ids, 6);
    assert SharedClaim(Ids).name == "ids-data-shared";
  }

  // Every other type has the same steps without the shared volume, and its hub does not refer to one.
  lemma OtherSteps(t: DeploymentType)
    requires t != Ids
    ensures var steps, all := EnvironmentSteps(t), EnvironmentSteps(Ids);
      && |steps| == 12 && |all| == 13
      && forall i :: 0 <= i < 12 ==>
           var step := all[if i < 6 then i else i + 1];
           && steps[i].name == step.name && steps[i].key == step.key
           && steps[i].refs == step.refs - {Key(VolumeClaim, "ids-data-shared")}
  {
    var steps, all := EnvironmentSteps(t), EnvironmentSteps(Ids);
    IdsSteps();
    StepAt(t, 0);
    forall i | 0 <= i < 12
      ensures
        var step := all[if i < 6 then i else i + 1];
        && steps[i].name == step.name && steps[i].key == step.key
        && steps[i].refs == step.refs - {Key(VolumeClaim, "ids-data-shared")}
    {
      StepAt(t, i);
      StepAt(Ids, if i < 6 then i else i + 1);
      SameButShared(t, i);
    }
  }

  lemma SameButShared(t: DeploymentType, i: nat)
    requires t != Ids && i < 12
    ensures var step, all := CommonSteps(t)[i], CommonSteps(Ids)[i];
      && step.name == all.name && step.key == all.key
      && step.refs == all.refs - {Key(VolumeClaim, "ids-data-shared")}
  {
    var shared := Key(VolumeClaim, "ids-data-shared");
    assert SharedClaim(Ids) == shared;
    assert |shared.name| == 15 && |HUB_CLAIM.name| == 10;
    if i == 10 {
      assert CommonSteps(t)[i].refs == HubNeeds(t) && CommonSteps(Ids)[i].refs == HubNeeds(Ids);
    }
  }

  // So the only volume claims of an environment are that of the hub and, for `ids`, the shared one.
  lemma ClaimsOf(t: DeploymentType, name: string)
    ensures Key(VolumeClaim, name) in StepKeys(EnvironmentConfig("", t)) <==>
            name == "hub-db-dir" || (t == Ids && name == "ids-data-shared")
  {
    var steps, key := EnvironmentSteps(t), Key(VolumeClaim, name);
    IdsSteps();
    if t != Ids { OtherSteps(t); }
    if key in StepKeys(EnvironmentConfig("", t)) {
      var i :| 0 <= i < |steps| && steps[i].key == key;
      assert i == 5 || (t == Ids && i == 6);
    }
    assert steps[5].key == Key(VolumeClaim, "hub-db-dir");
  }

  // The keys of a step list are distinct, and whatever a step refers to is created before it.
  ghost predicate WellOrdered(steps: seq<ProvisionStep>) {
    && (forall i, j :: 0 <= i < j < |steps| ==> steps[i].key != steps[j].key)
    && (forall i, ref :: 0 <= i < |steps| && ref in steps[i].refs ==> exists j :: 0 <= j < i && steps[j].key == ref)
  }

  // Inserting the shared claim keeps the other steps in their order, before the steps that need it.
  lemma StepListShape(t: DeploymentType)
    ensures var steps := EnvironmentSteps(t);
      && |steps| == (if t == Ids then 13 else 12)
      && WellOrdered(steps)
      && (if t == Ids
          then steps[6].key == Key(VolumeClaim, "ids-data-shared") && steps[..6] + steps[7..] == CommonSteps(t)
          else steps == CommonSteps(t))
  {
    var cfg := EnvironmentConfig("", t);
    EnvironmentWellFormed("", t);
    EnvironmentTopological("", t);
    StepAt(t, 6);
    assert SharedClaim(Ids).name == "ids-data-shared";
    forall i, ref | 0 <= i < |cfg.steps| && ref in cfg.steps[i].refs
      ensures exists j :: 0 <= j < i && cfg.steps[j].key == ref
    {
      assert Earlier(cfg, i, ref);
    }
  }

  lemma KafkaWellFormed(prefix: string)
    ensures WellFormed(KafkaConfig(prefix))
    ensures Topological(KafkaConfig(prefix))
  {
    AnnotationsDiffer(prefix);
    var cfg := KafkaConfig(prefix);
    assert KAFKA_HEADLESS.name[6] != KAFKA_EXTERNAL.name[6];
    assert cfg.steps[0].key == KAFKA_SECRET && cfg.steps[1].key == KAFKA_ACCOUNT && cfg.steps[2].key == KAFKA_HEADLESS;
    forall i, ref | 0 <= i < |cfg.steps| && ref in cfg.steps[i].refs
      ensures Earlier(cfg, i, ref)
    {
      assert i == 4;
    }
  }

  // The Kafka cluster, step by step; the stateful set refers to what its pods need.
  lemma KafkaStepsTable()
    ensures |KAFKA_STEPS| == 5
    ensures Creates(KAFKA_STEPS[0], "secret", Secret, "kafka-credentials")
    ensures Creates(KAFKA_STEPS[1], "service account", ServiceAccount, "kafka")
    ensures Creates(KAFKA_STEPS[2], "service kafka-headless", Service, "kafka-headless")
    ensures Creates(KAFKA_STEPS[3], "service kafka-external", Service, "kafka-external")
    ensures Creates(KAFKA_STEPS[4], "statefulset", StatefulSet, "kafka")
    ensures KAFKA_STEPS[4].refs ==
            {Key(Secret, "kafka-credentials"), Key(ServiceAccount, "kafka"), Key(Service, "kafka-headless")}
  {
  }

  // Where a common step stands, read from its name.
  function NameRank(name: string): nat {
    match |name|
    case 6 => 0
    case 15 => 1
    case 4 => 2
    case 12 => 3
    case 9 => 4
    case 7 => if name[0] == 'h' then 5 else 11
    case 17 => 6
    case 20 => 7
    case 11 => 8
    case 16 => 9
    case 14 => 10
    case _ => 12
  }

  // No name contains a colon, so none contains the separator.
  lemma ShortNames(name: string)
    requires name in {"secret", "role", "hub pvc", "ingress", "configmap", "shared pvc", "hub service", "statefulset"}
    ensures !HasSeparator(name)
  {
    NoColonNoSeparator(name);
  }

  lemma LongNames(name: string)
    requires name in {"role binding", "hub deployment", "service account", "proxy deployment", "proxy-api service"}
    ensures !HasSeparator(name)
  {
    NoColonNoSeparator(name);
  }

  lemma LongestNames(name: string)
    requires name in {"proxy-public service", "service kafka-headless", "service kafka-external"}
    ensures !HasSeparator(name)
  {
    NoColonNoSeparator(name);
  }

  lemma CommonName(t: DeploymentType, i: nat)
    requires i < 12
    ensures !HasSeparator(CommonSteps(t)[i].name)
    ensures NameRank(CommonSteps(t)[i].name) == i
  {
    if i in {3, 1, 6, 9, 10} {
      LongNames(CommonSteps(t)[i].name);
    } else if i == 7 {
      LongestNames(CommonSteps(t)[i].name);
    } else {
      ShortNames(CommonSteps(t)[i].name);
    }
  }

  lemma NameAt(t: DeploymentType, i: nat)
    requires i < |EnvironmentSteps(t)|
    ensures var name := EnvironmentSteps(t)[i].name;
      && !HasSeparator(name)
      && NameRank(name) == if SharedStorage(t) && i == 6 then 12
                           else if SharedStorage(t) && i > 6 then i - 1 else i
  {
    StepAt(t, i);
    if SharedStorage(t) && i == 6 {
      assert EnvironmentSteps(t)[i].name == "shared pvc";
      ShortNames("shared pvc");
    } else {
      CommonName(t, if SharedStorage(t) && i > 6 then i - 1 else i);
    }
  }

  lemma NamesDiffer(t: DeploymentType, i: nat, j: nat)
    requires i < j < |EnvironmentSteps(t)|
    ensures EnvironmentSteps(t)[i].name != EnvironmentSteps(t)[j].name
  {
    NameAt(t, i);
    NameAt(t, j);
    StepAt(t, j);
  }

  // Every step name of either list can be read back from the error annotation.
  lemma EnvironmentNamesReadable(prefix: string, t: DeploymentType)
    ensures Readable(EnvironmentConfig(prefix, t))
  {
    var cfg := EnvironmentConfig(prefix, t);
    assert cfg.steps == EnvironmentSteps(t);
    forall i | 0 <= i < |cfg.steps| ensures !HasSeparator(cfg.steps[i].name) {
      NameAt(t, i);
    }
    forall i, j | 0 <= i < j < |cfg.steps| ensures cfg.steps[i].name != cfg.steps[j].name {
      NamesDiffer(t, i, j);
    }
  }

  lemma KafkaName(i: nat)
    requires i < 5
    ensures !HasSeparator(KAFKA_STEPS[i].name)
    ensures |KAFKA_STEPS[i].name| == [6, 15, 22, 22, 11][i]
    ensures |KAFKA_STEPS[i].name| == 22 ==> (KAFKA_STEPS[i].name[14] == 'h' <==> i == 2)
  {
    if i == 1 {
      LongNames("service account");
    } else if i == 0 || i == 4 {
      ShortNames(KAFKA_STEPS[i].name);
    } else {
      LongestNames(KAFKA_STEPS[i].name);
    }
  }

  lemma KafkaNamesReadable(prefix: string)
    ensures Readable(KafkaConfig(prefix))
  {
    forall i | 0 <= i < 5 ensures !HasSeparator(KAFKA_STEPS[i].name) {
      KafkaName(i);
    }
    forall i, j | 0 <= i < j < 5 ensures KAFKA_STEPS[i].name != KAFKA_STEPS[j].name {
      KafkaName(i);
      KafkaName(j);
    }
  }
}
