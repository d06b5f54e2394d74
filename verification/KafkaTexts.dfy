/** The texts by which the brokers of the Kafka cluster and their clients find each other. */
module KafkaTexts {
  import opened Texts
  import opened Settings

  const DIGITS := "0123456789"

  function Decimal(n: nat): string {
    if n < 10 then [DIGITS[n]] else Decimal(n / 10) + [DIGITS[n % 10]]
  }

  function DigitValue(c: char): nat {
    if '0' <= c <= '9' then c as nat - '0' as nat else 0
  }

  function ParseDecimal(text: string): nat {
    if text == "" then 0 else 10 * ParseDecimal(text[..|text| - 1]) + DigitValue(text[|text| - 1])
  }

  lemma {:induction false} DecimalRoundTrip(n: nat)
    ensures ParseDecimal(Decimal(n)) == n
    ensures Decimal(n) != "" && forall c :: c in Decimal(n) ==> '0' <= c <= '9'
    ensures Decimal(n)[0] == '0' ==> n == 0 && |Decimal(n)| == 1
  {
    DigitOf(n % 10);
    if n < 10 {
      assert Decimal(n)[..0] == "";
    } else {
      DecimalRoundTrip(n / 10);
      assert Decimal(n)[..|Decimal(n)| - 1] == Decimal(n / 10);
    }
  }

  lemma DigitOf(d: nat)
    requires d < 10
    ensures '0' <= DIGITS[d] <= '9' && DigitValue(DIGITS[d]) == d
  {
  }

  // ---- Voters ----

  function PodName(i: nat): string {
    "kafka-" + Decimal(i)
  }

  function VoterHost(namespace: string, i: nat): string {
    PodName(i) + ".kafka-headless." + namespace + ".svc.cluster.local:29093"
  }

  function Voter(namespace: string, i: nat): string {
    Decimal(i) + "@" + VoterHost(namespace, i)
  }

  // quorum_voters
  function QuorumVoters(namespace: string, replicas: nat): string {
    Join(seq(replicas, (i: nat) => Voter(namespace, i)), ',')
  }

  // The shell's ${text##*-}: what follows the last dash.
  function AfterLastDash(text: string): string {
    if '-' !in text then text else AfterLastDash(text[1..])
  }

  lemma {:induction false} AfterLastDashSpec(prefix: string, suffix: string)
    requires '-' !in suffix
    ensures AfterLastDash(prefix + ['-'] + suffix) == suffix
  {
    var text := prefix + ['-'] + suffix;
    assert text[|prefix|] == '-';
    if prefix == "" {
      assert text[1..] == suffix;
    } else {
      assert text[1..] == prefix[1..] + ['-'] + suffix;
      AfterLastDashSpec(prefix[1..], suffix);
    }
  }

  lemma HostIsPlain(namespace: string, i: nat)
    requires ',' !in namespace && '@' !in namespace
    ensures ',' !in VoterHost(namespace, i) && '@' !in VoterHost(namespace, i)
  {
    DecimalRoundTrip(i);
    var tail := ".svc.cluster.local:29093";
    assert ',' !in tail && '@' !in tail;
    assert ',' !in ".kafka-headless." && '@' !in ".kafka-headless.";
    assert ',' !in PodName(i) && '@' !in PodName(i);
  }

  lemma PodNameIsLabel(i: nat)
    ensures '.' !in PodName(i)
  {
    DecimalRoundTrip(i);
    assert '.' !in "kafka-";
  }

  lemma FirstLabel(namespace: string, i: nat)
    ensures Split(VoterHost(namespace, i), '.')[0] == PodName(i)
  {
    var tail := "kafka-headless." + namespace + ".svc.cluster.local:29093";
    PodNameIsLabel(i);
    assert ".kafka-headless." == "." + "kafka-headless.";
    assert VoterHost(namespace, i) == PodName(i) + ['.'] + tail;
    SplitFirst(PodName(i), tail, '.');
  }

  lemma PodsDiffer(i: nat, j: nat)
    requires i != j
    ensures PodName(i) != PodName(j)
  {
    DecimalRoundTrip(i);
    DecimalRoundTrip(j);
    assert Decimal(i) == PodName(i)[6..] && Decimal(j) == PodName(j)[6..];
  }

  lemma HostsDiffer(namespace: string, i: nat, j: nat)
    requires i != j
    ensures VoterHost(namespace, i) != VoterHost(namespace, j)
  {
    FirstLabel(namespace, i);
    FirstLabel(namespace, j);
    PodsDiffer(i, j);
  }

  lemma VoterSplits(namespace: string, i: nat)
    requires ',' !in namespace && '@' !in namespace
    ensures ',' !in Voter(namespace, i)
    ensures Split(Voter(namespace, i), '@') == [Decimal(i), VoterHost(namespace, i)]
  {
    var host := VoterHost(namespace, i);
    DecimalRoundTrip(i);
    HostIsPlain(namespace, i);
    SplitFirst(Decimal(i), host, '@');
    SplitWhole(host, '@');
    assert Voter(namespace, i) == Decimal(i) + ['@'] + host;
  }

  // The node id that a pod derives from its host name is its ordinal.
  lemma NodeIdIsOrdinal(i: nat)
    ensures AfterLastDash(PodName(i)) == Decimal(i)
    ensures ParseDecimal(AfterLastDash(PodName(i))) == i
  {
    DecimalRoundTrip(i);
    assert PodName(i) == "kafka" + ['-'] + Decimal(i);
    AfterLastDashSpec("kafka", Decimal(i));
  }

  lemma VoterListSplits(namespace: string, replicas: nat)
    requires ',' !in namespace && '@' !in namespace && replicas > 0
    ensures Split(QuorumVoters(namespace, replicas), ',') == seq(replicas, (i: nat) => Voter(namespace, i))
  {
    var voters := seq(replicas, (i: nat) => Voter(namespace, i));
    forall k | 0 <= k < |voters| ensures ',' !in voters[k] {
      VoterSplits(namespace, k);
    }
    SplitOfJoin(voters, ',');
    assert QuorumVoters(namespace, replicas) == Join(voters, ',');
  }

  /** The voter list of `n` brokers splits back into ids 0 to n-1, each with the address of its own pod under the
      headless service, and the id of voter `i` is the node id that pod `i` takes from its host name. */
  lemma VotersMatchNodeIds(namespace: string, replicas: nat, i: nat)
    requires ',' !in namespace && '@' !in namespace && i < replicas
    ensures var voters := Split(QuorumVoters(namespace, replicas), ',');
      && |voters| == replicas
      && Split(voters[i], '@') == [AfterLastDash(PodName(i)), VoterHost(namespace, i)]
      && PodName(i) == "kafka-" + AfterLastDash(PodName(i))
      && VoterHost(namespace, i) == PodName(i) + ".kafka-headless." + namespace + ".svc.cluster.local:29093"
      && ParseDecimal(Split(voters[i], '@')[0]) == i
      && (Split(voters[i], '@')[0][..1] == "0" ==> i == 0)
      && (forall j: nat :: j < replicas && j != i ==> VoterHost(namespace, j) != VoterHost(namespace, i))
  {
    VoterListSplits(namespace, replicas);
    VoterSplits(namespace, i);
    NodeIdIsOrdinal(i);
    DecimalRoundTrip(i);
    forall j: nat | j < replicas && j != i ensures VoterHost(namespace, j) != VoterHost(namespace, i) {
      HostsDiffer(namespace, j, i);
    }
  }

  // ---- Clients ----

  function Endpoint(host: string, port: nat): string {
    host + ":" + Decimal(port)
  }

  // bootstrap_servers
  function BootstrapServers(hosts: seq<string>, port: nat): string {
    var named := if hosts == [] then ["<node-ip>"] else hosts;
    Join(seq(|named|, i requires 0 <= i < |named| => Endpoint(named[i], port)), ',')
  }

  // A client that splits the list finds one endpoint for each configured host, in order, and the port in each.
  lemma BootstrapListsEveryHost(setting: string, port: nat)
    ensures var hosts, found := SplitCsv(setting), Split(BootstrapServers(SplitCsv(setting), port), ',');
      && |found| == (if hosts == [] then 1 else |hosts|)
      && (forall i :: 0 <= i < |found| ==>
            var host := if hosts == [] then "<node-ip>" else hosts[i];
            && |found[i]| > |host| && host + ":" <= found[i]
            && ParseDecimal(found[i][|host| + 1..]) == port
            && found[i][|host| + 1..] == Decimal(port))
  {
    var hosts := SplitCsv(setting);
    var named := if hosts == [] then ["<node-ip>"] else hosts;
    CsvItemsAreClean(setting);
    assert ',' !in "<node-ip>";
    EndpointsSplit(named, port);
    forall i | 0 <= i < |named| {
      EndpointParts(named[i], port);
    }
  }

  lemma EndpointsSplit(hosts: seq<string>, port: nat)
    requires hosts != [] && forall i :: 0 <= i < |hosts| ==> ',' !in hosts[i]
    ensures var found := Split(Join(seq(|hosts|, i requires 0 <= i < |hosts| => Endpoint(hosts[i], port)), ','), ',');
      |found| == |hosts| && forall i :: 0 <= i < |hosts| ==> found[i] == Endpoint(hosts[i], port)
  {
    var endpoints := seq(|hosts|, i requires 0 <= i < |hosts| => Endpoint(hosts[i], port));
    DecimalRoundTrip(port);
    SplitOfJoin(endpoints, ',');
  }

  lemma EndpointParts(host: string, port: nat)
    ensures var endpoint := Endpoint(host, port);
      && |endpoint| > |host| && host + ":" <= endpoint
      && endpoint[|host| + 1..] == Decimal(port)
      && ParseDecimal(endpoint[|host| + 1..]) == port
  {
    DecimalRoundTrip(port);
  }
}
