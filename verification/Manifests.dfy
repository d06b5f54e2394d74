/** The bundled manifests: parsed once, kept in a cache, and copied in full for every caller, because the
    builders change their copy in place. */
module Manifests {

  // A position inside a mapping or a list.
  datatype Slot = Field(name: string) | Item(index: nat)

  datatype Shape = Scalar(text: string) | Dict | List

  // The value of a parsed document.
  datatype Tree = Tree(shape: Shape, kids: map<Slot, Tree>)

  function Text(text: string): Tree {
    Tree(Scalar(text), map[])
  }

  // The value at the end of a path.
  predicate HasPath(t: Tree, path: seq<Slot>) {
    path == [] || (path[0] in t.kids && HasPath(t.kids[path[0]], path[1..]))
  }

  function At(t: Tree, path: seq<Slot>): Tree
    requires HasPath(t, path)
  {
    if path == [] then t else At(t.kids[path[0]], path[1..])
  }

  // `t` with the value in `slot` of the place at `path` replaced (or added).
  function Put(t: Tree, path: seq<Slot>, slot: Slot, value: Tree): Tree
    requires HasPath(t, path)
  {
    if path == [] then t.(kids := t.kids[slot := value])
    else t.(kids := t.kids[path[0] := Put(t.kids[path[0]], path[1..], slot, value)])
  }

  lemma {:induction false} PutThere(t: Tree, path: seq<Slot>, slot: Slot, value: Tree)
    requires HasPath(t, path)
    ensures var t' := Put(t, path, slot, value);
      && HasPath(t', path + [slot]) && At(t', path + [slot]) == value
      && HasPath(t', path) && At(t', path) == At(t, path).(kids := At(t, path).kids[slot := value])
  {
    var t' := Put(t, path, slot, value);
    if path == [] {
      assert (path + [slot])[1..] == [];
    } else {
      PutThere(t.kids[path[0]], path[1..], slot, value);
      assert (path + [slot])[1..] == path[1..] + [slot];
    }
  }

  // A place that is not inside the replaced one is where it was, and is the same unless it contains it.
  lemma {:induction false} PutElsewhere(t: Tree, path: seq<Slot>, slot: Slot, value: Tree, other: seq<Slot>)
    requires HasPath(t, path) && !(path + [slot] <= other)
    ensures var t' := Put(t, path, slot, value);
      && (HasPath(t', other) <==> HasPath(t, other))
      && (HasPath(t, other) && !(other <= path) ==> At(t', other) == At(t, other))
  {
    if other != [] {
      if path == [] {
        assert other[0] == slot ==> [] + [slot] <= other;
      } else if other[0] == path[0] {
        assert other == [other[0]] + other[1..] && path == [path[0]] + path[1..];
        assert path + [slot] == [path[0]] + (path[1..] + [slot]);
        PutElsewhere(t.kids[path[0]], path[1..], slot, value, other[1..]);
      }
    }
  }

  // A mutable document as the YAML parser builds it; `Value` is what it stands for.
  class Node {
    ghost var Repr: set<Node>
    ghost var Value: Tree
    var shape: Shape
    var kids: map<Slot, Node>

    ghost predicate Valid()
      reads this, Repr
      decreases Repr
    {
      && this in Repr
      && Value.shape == shape
      && Value.kids.Keys == kids.Keys
      && (forall k :: k in kids ==>
            && kids[k] in Repr && kids[k].Repr <= Repr && this !in kids[k].Repr
            && kids[k].Valid()
            && Value.kids[k] == kids[k].Value)
      && (forall j, k :: j in kids && k in kids && j != k ==> kids[j].Repr !! kids[k].Repr)
    }

    constructor (shape: Shape, kids: map<Slot, Node>)
      requires Separate(kids)
      ensures Valid() && Repr == {this} + Nodes(kids)
      ensures Value == Tree(shape, map k | k in kids :: kids[k].Value)
    {
      this.shape := shape;
      this.kids := kids;
      Repr := {this} + Nodes(kids);
      Value := Tree(shape, map k | k in kids :: kids[k].Value);
      new;
      assert this !in Nodes(kids) && forall k :: k in kids ==> kids[k] != this;
      assert Separate(kids);
      ParentIsValid(this);
    }
  }

  lemma KidNodes(kids: map<Slot, Node>, k: Slot)
    requires k in kids && kids[k].Valid()
    ensures kids[k] in Nodes(kids) && kids[k].Repr <= Nodes(kids)
  {
  }

  // A node over separate documents that it does not occur in.
  lemma ParentIsValid(n: Node)
    requires Separate(n.kids) && n !in Nodes(n.kids)
    requires n.Repr == {n} + Nodes(n.kids)
    requires n.Value.shape == n.shape && n.Value.kids.Keys == n.kids.Keys
    requires forall k :: k in n.kids ==> n.Value.kids[k] == n.kids[k].Value
    ensures n.Valid()
  {
    forall k | k in n.kids
      ensures n.kids[k] in n.Repr && n.kids[k].Repr <= n.Repr && n !in n.kids[k].Repr && n.kids[k].Valid()
    {
      KidNodes(n.kids, k);
    }
  }

  // The nodes of several documents.
  ghost function Nodes(kids: map<Slot, Node>): set<Node>
    reads kids.Values
  {
    set k, n | k in kids && n in kids[k].Repr :: n
  }

  ghost predicate Separate(kids: map<Slot, Node>)
    reads kids.Values, Nodes(kids)
  {
    && (forall k :: k in kids ==> kids[k].Valid())
    && (forall j, k :: j in kids && k in kids && j != k ==> kids[j].Repr !! kids[k].Repr)
  }

  // copy.deepcopy: a new tree of new nodes with the same value.
  method DeepCopy(n: Node) returns (c: Node)
    requires n.Valid()
    ensures c.Valid() && fresh(c.Repr)
    ensures c.Value == n.Value
    decreases n.Repr
  {
    var copies := CopyKids(n);
    c := new Node(n.shape, copies);
    assert c.Value.kids == n.Value.kids;
  }

  method CopyKids(n: Node) returns (copies: map<Slot, Node>)
    requires n.Valid()
    ensures Separate(copies) && copies.Keys == n.kids.Keys && fresh(Nodes(copies))
    ensures forall k :: k in copies ==> copies[k].Value == n.Value.kids[k]
    decreases n.Repr, 0
  {
    copies := map[];
    var slots := n.kids.Keys;
    while slots != {}
      invariant slots <= n.kids.Keys && copies.Keys == n.kids.Keys - slots
      invariant Separate(copies) && fresh(Nodes(copies))
      invariant forall k :: k in copies ==> copies[k].Value == n.Value.kids[k]
      decreases slots
    {
      var slot :| slot in slots;
      assert n.kids[slot].Repr < n.Repr by { assert n !in n.kids[slot].Repr; }
      var kid := DeepCopy(n.kids[slot]);
      SeparateWith(copies, slot, kid);
      NodesWith(copies, slot, kid);
      copies := copies[slot := kid];
      slots := slots - {slot};
    }
  }

  lemma NodesWith(kids: map<Slot, Node>, slot: Slot, kid: Node)
    requires slot !in kids
    ensures Nodes(kids[slot := kid]) <= Nodes(kids) + kid.Repr
  {
  }

  lemma SeparateWith(kids: map<Slot, Node>, slot: Slot, kid: Node)
    requires Separate(kids) && kid.Valid() && slot !in kids && kid.Repr !! Nodes(kids)
    ensures Separate(kids[slot := kid])
  {
    forall k | k in kids ensures kids[k].Repr <= Nodes(kids) {
    }
  }

  // `n[slot] = value` on the container itself.
  method AssignHere(n: Node, slot: Slot, value: Node)
    requires n.Valid() && value.Valid() && n.Repr !! value.Repr
    modifies n
    ensures n.Valid() && n.Repr == old(n.Repr) + value.Repr
    ensures n.Value == Put(old(n.Value), [], slot, value.Value)
  {
    n.kids := n.kids[slot := value];
    n.Value := n.Value.(kids := n.Value.kids[slot := value.Value]);
    n.Repr := n.Repr + value.Repr;
  }

  // `container[slot] = value`, for the container that the path leads to inside `n`.
  method Assign(n: Node, path: seq<Slot>, slot: Slot, value: Node)
    requires n.Valid() && value.Valid() && n.Repr !! value.Repr
    requires HasPath(n.Value, path)
    modifies n.Repr
    ensures n.Valid() && n.Repr == old(n.Repr) + value.Repr
    ensures n.Value == Put(old(n.Value), path, slot, value.Value)
    decreases |path|, 0
  {
    if path == [] {
      AssignHere(n, slot, value);
    } else {
      AssignBelow(n, path[0], path[1..], slot, value);
    }
  }

  method AssignBelow(n: Node, first: Slot, rest: seq<Slot>, slot: Slot, value: Node)
    requires n.Valid() && value.Valid() && n.Repr !! value.Repr
    requires first in n.kids && HasPath(n.kids[first].Value, rest)
    modifies n.Repr
    ensures n.Valid() && n.Repr == old(n.Repr) + value.Repr
    ensures n.Value == old(n.Value).(
                       kids := old(n.Value).kids[first := Put(old(n.kids[first].Value), rest, slot, value.Value)])
    decreases |rest|, 1
  {
    var kid := n.kids[first];
    assert forall k :: k in n.kids && k != first ==> n.kids[k].Repr !! kid.Repr;
    Assign(kid, rest, slot, value);
    assert forall k :: k in n.kids && k != first ==> n.kids[k].Valid();
    KidChanged(n, first, value.Repr);
  }

  // After a change inside one kid, bring the record of `n` up to date.
  ghost method KidChanged(n: Node, slot: Slot, added: set<Node>)
    requires n in n.Repr && slot in n.kids && n !in added
    requires n.Value.shape == n.shape && n.Value.kids.Keys == n.kids.Keys
    requires forall k :: k in n.kids ==>
               && n.kids[k] in n.Repr && n !in n.kids[k].Repr && n.kids[k].Valid()
               && n.kids[k].Repr <= n.Repr + added
               && (k != slot ==> n.Value.kids[k] == n.kids[k].Value)
    requires forall j, k :: j in n.kids && k in n.kids && j != k ==> n.kids[j].Repr !! n.kids[k].Repr
    modifies n
    ensures n.Valid() && n.Repr == old(n.Repr) + added
    ensures n.Value == old(n.Value).(kids := old(n.Value).kids[slot := n.kids[slot].Value])
  {
    n.Value := n.Value.(kids := n.Value.kids[slot := n.kids[slot].Value]);
    n.Repr := n.Repr + added;
  }

  // ---- Building new documents ----

  method NewText(text: string) returns (n: Node)
    ensures n.Valid() && fresh(n.Repr) && n.Value == Text(text)
  {
    n := new Node(Scalar(text), map[]);
    assert n.Value.kids == map[];
  }

  // A mapping of texts, such as one entry of an environment list.
  function Pair(first: string, value: string, second: string, other: Tree): Tree {
    Tree(Dict, map[Field(first) := Text(value), Field(second) := other])
  }

  method NewPair(first: string, value: string, second: string, other: Node) returns (n: Node)
    requires other.Valid() && first != second
    ensures n.Valid() && fresh(n.Repr - other.Repr) && n.Value == Pair(first, value, second, other.Value)
  {
    var text := NewText(value);
    n := NewField(first, text);
    AssignHere(n, Field(second), other);
    assert n.Value.kids == map[Field(first) := Text(value), Field(second) := other.Value];
  }

  method NewField(name: string, value: Node) returns (n: Node)
    requires value.Valid()
    ensures n.Valid() && fresh(n.Repr - value.Repr) && n.Value == Tree(Dict, map[Field(name) := value.Value])
  {
    n := new Node(Dict, map[]);
    AssignHere(n, Field(name), value);
    assert n.Value.kids == map[Field(name) := value.Value];
  }

  method NewList(item: Node) returns (n: Node)
    requires item.Valid()
    ensures n.Valid() && fresh(n.Repr - item.Repr) && n.Value == Tree(List, map[Item(0) := item.Value])
  {
    n := new Node(List, map[]);
    AssignHere(n, Item(0), item);
    assert n.Value.kids == map[Item(0) := item.Value];
  }

  // yaml.safe_load: nodes for a parsed document.
  method Parse(t: Tree) returns (n: Node)
    ensures n.Valid() && fresh(n.Repr) && n.Value == t
    decreases t, 1
  {
    var kids := ParseKids(t);
    n := new Node(t.shape, kids);
    assert n.Value.kids == t.kids;
  }

  method ParseKids(t: Tree) returns (kids: map<Slot, Node>)
    ensures Separate(kids) && kids.Keys == t.kids.Keys && fresh(Nodes(kids))
    ensures forall k :: k in kids ==> kids[k].Value == t.kids[k]
    decreases t, 0
  {
    kids := map[];
    var slots := t.kids.Keys;
    while slots != {}
      invariant slots <= t.kids.Keys && kids.Keys == t.kids.Keys - slots
      invariant Separate(kids) && fresh(Nodes(kids))
      invariant forall k :: k in kids ==> kids[k].Value == t.kids[k]
      decreases slots
    {
      var slot :| slot in slots;
      var kid := Parse(t.kids[slot]);
      SeparateWith(kids, slot, kid);
      NodesWith(kids, slot, kid);
      kids := kids[slot := kid];
      slots := slots - {slot};
    }
  }

  // ---- The two rendered manifests, as values ----

  const RULE: seq<Slot> := [Field("spec"), Field("rules"), Item(0)]
  const BACKEND: seq<Slot> :=
    RULE + [Field("http"), Field("paths"), Item(0), Field("backend"), Field("service")]
  const BACKEND_PORT: seq<Slot> := BACKEND + [Field("port")]
  const SPEC: seq<Slot> := [Field("spec")]
  const CONTAINER_ENV: seq<Slot> :=
    [Field("spec"), Field("template"), Field("spec"), Field("containers"), Item(0), Field("env")]

  function TlsList(host: string, secret: string): Tree {
    Tree(List, map[Item(0) := Pair("secretName", secret, "hosts", Tree(List, map[Item(0) := Text(host)]))])
  }

  // The subscripts that build_ingress applies to the template.
  ghost predicate IngressTemplate(t: Tree) {
    HasPath(t, RULE) && HasPath(t, BACKEND) && HasPath(t, BACKEND_PORT) && HasPath(t, SPEC)
  }

  lemma IngressPathsStay(t: Tree, container: seq<Slot>, slot: Slot, value: Tree)
    requires IngressTemplate(t) && HasPath(t, container)
    requires !(container + [slot] <= RULE) && !(container + [slot] <= BACKEND)
    requires !(container + [slot] <= BACKEND_PORT) && !(container + [slot] <= SPEC)
    ensures IngressTemplate(Put(t, container, slot, value))
  {
    PutElsewhere(t, container, slot, value, RULE);
    PutElsewhere(t, container, slot, value, BACKEND);
    PutElsewhere(t, container, slot, value, BACKEND_PORT);
    PutElsewhere(t, container, slot, value, SPEC);
  }

  // The place is neither inside one of the assigned ones nor contains one.
  ghost predicate Unrelated(path: seq<Slot>, container: seq<Slot>, slot: Slot) {
    !(container + [slot] <= path) && !(path <= container)
  }

  // None of the assigned places lies on the way to another container.
  lemma PlacesApart()
    ensures !(RULE + [Field("host")] <= BACKEND) && !(RULE + [Field("host")] <= BACKEND_PORT)
    ensures !(BACKEND + [Field("name")] <= BACKEND_PORT)
    ensures !(SPEC + [Field("tls")] <= RULE) && !(SPEC + [Field("tls")] <= BACKEND)
    ensures !(SPEC + [Field("tls")] <= BACKEND_PORT)
    ensures Unrelated(RULE + [Field("host")], BACKEND, Field("name"))
    ensures Unrelated(RULE + [Field("host")], BACKEND_PORT, Field("number"))
    ensures Unrelated(RULE + [Field("host")], SPEC, Field("tls"))
    ensures Unrelated(BACKEND + [Field("name")], BACKEND_PORT, Field("number"))
    ensures Unrelated(BACKEND + [Field("name")], SPEC, Field("tls"))
    ensures Unrelated(BACKEND_PORT + [Field("number")], SPEC, Field("tls"))
  {
    assert (RULE + [Field("host")])[3] == Field("host") && BACKEND[3] == BACKEND_PORT[3] == Field("http");
    assert "host"[1] != "http"[1];
    assert (BACKEND + [Field("name")])[8] == Field("name") && BACKEND_PORT[8] == Field("port");
    assert "name"[0] != "port"[0];
    assert (SPEC + [Field("tls")])[1] == Field("tls") && RULE[1] == BACKEND[1] == BACKEND_PORT[1] == Field("rules");
    assert |"tls"| != |"rules"|;
  }

  // One `container[slot] = text` of a builder.
  datatype Change = Change(container: seq<Slot>, slot: Slot, text: string)

  // Three assignments, none of which replaces what leads to a later one.
  ghost predicate Applicable(t: Tree, a: Change, b: Change, c: Change) {
    && HasPath(t, a.container) && HasPath(t, b.container) && HasPath(t, c.container)
    && !(a.container + [a.slot] <= b.container)
    && !(a.container + [a.slot] <= c.container)
    && !(b.container + [b.slot] <= c.container)
  }

  function Apply(t: Tree, change: Change): Tree
    requires HasPath(t, change.container)
  {
    Put(t, change.container, change.slot, Text(change.text))
  }

  function ApplyAll(t: Tree, a: Change, b: Change, c: Change): Tree
    requires Applicable(t, a, b, c)
  {
    PutElsewhere(t, a.container, a.slot, Text(a.text), b.container);
    PutElsewhere(t, a.container, a.slot, Text(a.text), c.container);
    PutElsewhere(Apply(t, a), b.container, b.slot, Text(b.text), c.container);
    Apply(Apply(Apply(t, a), b), c)
  }

  function HostChange(host: string): Change {
    Change(RULE, Field("host"), host)
  }

  const NAME_CHANGE := Change(BACKEND, Field("name"), "proxy-public")
  const PORT_CHANGE := Change(BACKEND_PORT, Field("number"), "80")

  lemma ChangesApply(t: Tree, host: string)
    requires IngressTemplate(t)
    ensures Applicable(t, HostChange(host), NAME_CHANGE, PORT_CHANGE)
    ensures IngressTemplate(ApplyAll(t, HostChange(host), NAME_CHANGE, PORT_CHANGE))
  {
    PlacesApart();
    var t1 := Apply(t, HostChange(host));
    IngressPathsStay(t, RULE, Field("host"), Text(host));
    var t2 := Apply(t1, NAME_CHANGE);
    IngressPathsStay(t1, BACKEND, Field("name"), Text("proxy-public"));
    IngressPathsStay(t2, BACKEND_PORT, Field("number"), Text("80"));
  }

  function IngressFor(t: Tree, host: string, secret: string): Tree
    requires IngressTemplate(t)
  {
    ChangesApply(t, host);
    Put(ApplyAll(t, HostChange(host), NAME_CHANGE, PORT_CHANGE), SPEC, Field("tls"), TlsList(host, secret))
  }

  // The assigned places hold what was assigned last, and everything else is as in the template.
  lemma IngressPlaces(t: Tree, host: string, secret: string, other: seq<Slot>)
    requires IngressTemplate(t)
    requires Unrelated(other, RULE, Field("host")) && Unrelated(other, BACKEND, Field("name"))
    requires Unrelated(other, BACKEND_PORT, Field("number")) && Unrelated(other, SPEC, Field("tls"))
    ensures var r := IngressFor(t, host, secret);
      && HasPath(r, RULE + [Field("host")]) && At(r, RULE + [Field("host")]) == Text(host)
      && HasPath(r, BACKEND + [Field("name")]) && At(r, BACKEND + [Field("name")]) == Text("proxy-public")
      && HasPath(r, BACKEND_PORT + [Field("number")]) && At(r, BACKEND_PORT + [Field("number")]) == Text("80")
      && HasPath(r, SPEC + [Field("tls")]) && At(r, SPEC + [Field("tls")]) == TlsList(host, secret)
      && (HasPath(r, other) <==> HasPath(t, other))
      && (HasPath(t, other) ==> At(r, other) == At(t, other))
  {
    PlacesApart();
    ChangesApply(t, host);
    var t1 := Put(t, RULE, Field("host"), Text(host));
    IngressPathsStay(t, RULE, Field("host"), Text(host));
    var t2 := Put(t1, BACKEND, Field("name"), Text("proxy-public"));
    IngressPathsStay(t1, BACKEND, Field("name"), Text("proxy-public"));
    var t3 := Put(t2, BACKEND_PORT, Field("number"), Text("80"));
    IngressPathsStay(t2, BACKEND_PORT, Field("number"), Text("80"));
    PutElsewhere(t, RULE, Field("host"), Text(host), other);
    PutElsewhere(t1, BACKEND, Field("name"), Text("proxy-public"), other);
    PutElsewhere(t2, BACKEND_PORT, Field("number"), Text("80"), other);
    PutElsewhere(t3, SPEC, Field("tls"), TlsList(host, secret), other);
    PutThere(t, RULE, Field("host"), Text(host));
    PutElsewhere(t1, BACKEND, Field("name"), Text("proxy-public"), RULE + [Field("host")]);
    PutElsewhere(t2, BACKEND_PORT, Field("number"), Text("80"), RULE + [Field("host")]);
    PutElsewhere(t3, SPEC, Field("tls"), TlsList(host, secret), RULE + [Field("host")]);
    PutThere(t1, BACKEND, Field("name"), Text("proxy-public"));
    PutElsewhere(t2, BACKEND_PORT, Field("number"), Text("80"), BACKEND + [Field("name")]);
    PutElsewhere(t3, SPEC, Field("tls"), TlsList(host, secret), BACKEND + [Field("name")]);
    PutThere(t2, BACKEND_PORT, Field("number"), Text("80"));
    PutElsewhere(t3, SPEC, Field("tls"), TlsList(host, secret), BACKEND_PORT + [Field("number")]);
    PutThere(t3, SPEC, Field("tls"), TlsList(host, secret));
  }

  lemma PlacesSpelledOut()
    ensures RULE == [Field("spec"), Field("rules"), Item(0)]
    ensures BACKEND == [Field("spec"), Field("rules"), Item(0), Field("http"), Field("paths"), Item(0),
                        Field("backend"), Field("service")]
    ensures BACKEND_PORT == [Field("spec"), Field("rules"), Item(0), Field("http"), Field("paths"), Item(0),
                             Field("backend"), Field("service"), Field("port")]
    ensures SPEC == [Field("spec")]
    ensures CONTAINER_ENV == [Field("spec"), Field("template"), Field("spec"), Field("containers"), Item(0),
                              Field("env")]
  {
  }

  // The place holds this text.
  ghost predicate HasText(t: Tree, path: seq<Slot>, text: string) {
    HasPath(t, path) && At(t, path).shape == Scalar(text) && At(t, path).kids == map[]
  }

  // A list with one entry that names a secret and the single host that it is for.
  ghost predicate IsTlsFor(t: Tree, host: string, secret: string) {
    && t.shape == List && t.kids.Keys == {Item(0)}
    && var entry := t.kids[Item(0)];
    && entry.shape == Dict && entry.kids.Keys == {Field("secretName"), Field("hosts")}
    && entry.kids[Field("secretName")] == Tree(Scalar(secret), map[])
    && var hosts := entry.kids[Field("hosts")];
    && hosts.shape == List && hosts.kids == map[Item(0) := Tree(Scalar(host), map[])]
  }

  lemma TlsIsFor(host: string, secret: string)
    ensures IsTlsFor(TlsList(host, secret), host, secret)
  {
    assert |"secretName"| != |"hosts"|;
  }

  /** The rendered ingress has the host, the backend and the TLS entry of its environment, and everything
      else as in the template. */
  lemma IngressIsRendered(t: Tree, host: string, secret: string, other: seq<Slot>)
    requires IngressTemplate(t)
    requires Unrelated(other, RULE, Field("host")) && Unrelated(other, BACKEND, Field("name"))
    requires Unrelated(other, BACKEND_PORT, Field("number")) && Unrelated(other, SPEC, Field("tls"))
    ensures var r := IngressFor(t, host, secret);
      var rule := [Field("spec"), Field("rules"), Item(0)];
      var service := rule + [Field("http"), Field("paths"), Item(0), Field("backend"), Field("service")];
      && HasText(r, rule + [Field("host")], host)
      && HasText(r, service + [Field("name")], "proxy-public")
      && HasText(r, service + [Field("port"), Field("number")], "80")
      && HasPath(r, [Field("spec"), Field("tls")])
      && IsTlsFor(At(r, [Field("spec"), Field("tls")]), host, secret)
      && (HasPath(r, other) <==> HasPath(t, other))
      && (HasPath(t, other) ==> At(r, other) == At(t, other))
  {
    IngressPlaces(t, host, secret, other);
    PlacesSpelledOut();
    TlsIsFor(host, secret);
    var rule := [Field("spec"), Field("rules"), Item(0)];
    var service := rule + [Field("http"), Field("paths"), Item(0), Field("backend"), Field("service")];
    assert service == BACKEND;
    assert service + [Field("port"), Field("number")] == BACKEND_PORT + [Field("number")];
    assert [Field("spec"), Field("tls")] == SPEC + [Field("tls")];
  }

  // A list of `n` items holds exactly the positions below `n`.
  ghost predicate IsList(t: Tree) {
    && t.shape == List
    && forall slot :: slot in t.kids <==> slot.Item? && slot.index < |t.kids|
  }

  function EnvEntry(name: string, value: string): Tree {
    Pair("name", name, "value", Text(value))
  }

  // `list += [first, second]` for the list at a path.
  function Extended(t: Tree, list: seq<Slot>, first: Tree, second: Tree): Tree
    requires HasPath(t, list)
  {
    var n := |At(t, list).kids|;
    PutThere(t, list, Item(n), first);
    Put(Put(t, list, Item(n), first), list, Item(n + 1), second)
  }

  lemma ExtendedByTwo(t: Tree, list: seq<Slot>, first: Tree, second: Tree, other: seq<Slot>)
    requires HasPath(t, list) && IsList(At(t, list))
    requires !(list <= other) && !(other <= list)
    ensures var r := Extended(t, list, first, second);
      && HasPath(r, list)
      && var items, items' := At(t, list), At(r, list);
      && IsList(items') && |items'.kids| == |items.kids| + 2
      && (forall slot :: slot in items.kids ==> items'.kids[slot] == items.kids[slot])
      && items'.kids[Item(|items.kids|)] == first
      && items'.kids[Item(|items.kids| + 1)] == second
      && (HasPath(r, other) <==> HasPath(t, other))
      && (HasPath(t, other) ==> At(r, other) == At(t, other))
  {
    var items := At(t, list);
    var n := |items.kids|;
    var t1 := Put(t, list, Item(n), first);
    PutThere(t, list, Item(n), first);
    PutThere(t1, list, Item(n + 1), second);
    assert list <= list + [Item(n)] && list <= list + [Item(n + 1)];
    PutElsewhere(t, list, Item(n), first, other);
    PutElsewhere(t1, list, Item(n + 1), second, other);
    assert Item(n) !in items.kids;
    assert Item(n + 1) !in items.kids[Item(n) := first];
  }

  function HubDeploymentFor(t: Tree, domain: string, realm: string): Tree
    requires HasPath(t, CONTAINER_ENV)
  {
    Extended(t, CONTAINER_ENV, EnvEntry("HUB_BASE_DOMAIN", domain), EnvEntry("KEYCLOAK_REALM_URL", realm))
  }

  /** The rendered deployment has the environment of the template followed by exactly two entries, and
      everything else as in the template. */
  lemma HubDeploymentIsRendered(t: Tree, domain: string, realm: string, other: seq<Slot>)
    requires HasPath(t, CONTAINER_ENV) && IsList(At(t, CONTAINER_ENV))
    requires !(CONTAINER_ENV <= other) && !(other <= CONTAINER_ENV)
    ensures var r := HubDeploymentFor(t, domain, realm);
      var list := [Field("spec"), Field("template"), Field("spec"), Field("containers"), Item(0), Field("env")];
      && HasPath(t, list) && HasPath(r, list)
      && var env, env' := At(t, list), At(r, list);
      && IsList(env') && |env'.kids| == |env.kids| + 2
      && (forall slot :: slot in env.kids ==> env'.kids[slot] == env.kids[slot])
      && IsVariable(env'.kids[Item(|env.kids|)], "HUB_BASE_DOMAIN", domain)
      && IsVariable(env'.kids[Item(|env.kids| + 1)], "KEYCLOAK_REALM_URL", realm)
      && (HasPath(r, other) <==> HasPath(t, other))
      && (HasPath(t, other) ==> At(r, other) == At(t, other))
  {
    PlacesSpelledOut();
    var first, second := EnvEntry("HUB_BASE_DOMAIN", domain), EnvEntry("KEYCLOAK_REALM_URL", realm);
    ExtendedByTwo(t, CONTAINER_ENV, first, second, other);
    EntryIsVariable("HUB_BASE_DOMAIN", domain);
    EntryIsVariable("KEYCLOAK_REALM_URL", realm);
  }

  // A mapping of exactly a name and a value.
  ghost predicate IsVariable(t: Tree, name: string, value: string) {
    && t.shape == Dict && t.kids.Keys == {Field("name"), Field("value")}
    && t.kids[Field("name")] == Tree(Scalar(name), map[])
    && t.kids[Field("value")] == Tree(Scalar(value), map[])
  }

  lemma EntryIsVariable(name: string, value: string)
    ensures IsVariable(EnvEntry(name, value), name, value)
  {
    assert |"name"| != |"value"|;
  }

  // ---- The cache and the builders ----

  class ManifestStore {
    // The bundled files, as the parser reads them.
    const files: map<string, Tree>
    var cache: map<string, Node>
    ghost var Cached: set<Node>

    // Every cached document still says what its file says.
    ghost predicate Valid()
      reads this, Cached
    {
      forall path :: path in cache ==>
        && path in files
        && cache[path] in Cached && cache[path].Repr <= Cached
        && cache[path].Valid()
        && cache[path].Value == files[path]
    }

    constructor (files: map<string, Tree>)
      ensures Valid() && this.files == files && Cached == {}
    {
      this.files := files;
      cache := map[];
      Cached := {};
    }

    // _load_manifest: parse the file once, then answer from the cache.
    method LoadManifest(path: string) returns (n: Node)
      requires Valid() && path in files
      modifies this
      ensures Valid() && old(Cached) <= Cached && fresh(Cached - old(Cached))
      ensures n.Valid() && n.Repr <= Cached && n.Value == files[path]
      ensures cache == old(cache)[path := n]
      ensures path in old(cache) ==> n == old(cache)[path] && Cached == old(Cached)
    {
      if path !in cache {
        var parsed := Parse(files[path]);
        cache := cache[path := parsed];
        Cached := Cached + parsed.Repr;
      }
      n := cache[path];
    }

    // manifest: a private copy, sharing nothing with the cache or with any earlier result.
    method Manifest(path: string) returns (n: Node)
      requires Valid() && path in files
      modifies this
      ensures Valid() && old(Cached) <= Cached && fresh(Cached - old(Cached))
      ensures n.Valid() && fresh(n.Repr) && n.Repr !! Cached
      ensures n.Value == files[path]
    {
      var cached := LoadManifest(path);
      n := DeepCopy(cached);
    }

    method BuildIngress(typeName: string, domain: string, secret: string) returns (body: Node)
      requires Valid() && "hub/ingress.yaml" in files && IngressTemplate(files["hub/ingress.yaml"])
      modifies this
      ensures Valid() && old(Cached) <= Cached && fresh(Cached - old(Cached))
      ensures body.Valid() && fresh(body.Repr) && body.Repr !! Cached
      ensures body.Value == IngressFor(files["hub/ingress.yaml"], typeName + "." + domain, secret)
    {
      body := Manifest("hub/ingress.yaml");
      var host := typeName + "." + domain;
      SetIngress(body, host, secret);
    }

    method BuildHubDeployment(domain: string, realm: string) returns (body: Node)
      requires Valid() && "hub/hub-deployment.yaml" in files
      requires HasPath(files["hub/hub-deployment.yaml"], CONTAINER_ENV)
      modifies this
      ensures Valid() && old(Cached) <= Cached && fresh(Cached - old(Cached))
      ensures body.Valid() && fresh(body.Repr) && body.Repr !! Cached
      ensures body.Value == HubDeploymentFor(files["hub/hub-deployment.yaml"], domain, realm)
    {
      body := Manifest("hub/hub-deployment.yaml");
      ExtendEnv(body, domain, realm);
    }
  }

  method SetText(body: Node, container: seq<Slot>, slot: Slot, text: string)
    requires body.Valid() && HasPath(body.Value, container)
    modifies body.Repr
    ensures body.Valid() && fresh(body.Repr - old(body.Repr))
    ensures body.Value == Put(old(body.Value), container, slot, Text(text))
  {
    var value := NewText(text);
    Assign(body, container, slot, value);
  }

  method SetTwo(body: Node, a: Change, b: Change)
    requires body.Valid() && HasPath(body.Value, a.container) && HasPath(Apply(body.Value, a), b.container)
    modifies body.Repr
    ensures body.Valid() && fresh(body.Repr - old(body.Repr))
    ensures body.Value == Apply(Apply(old(body.Value), a), b)
  {
    SetText(body, a.container, a.slot, a.text);
    SetText(body, b.container, b.slot, b.text);
  }

  method SetTexts(body: Node, a: Change, b: Change, c: Change)
    requires body.Valid() && Applicable(body.Value, a, b, c)
    modifies body.Repr
    ensures body.Valid() && fresh(body.Repr - old(body.Repr))
    ensures body.Value == ApplyAll(old(body.Value), a, b, c)
  {
    PutElsewhere(body.Value, a.container, a.slot, Text(a.text), b.container);
    PutElsewhere(body.Value, a.container, a.slot, Text(a.text), c.container);
    PutElsewhere(Apply(body.Value, a), b.container, b.slot, Text(b.text), c.container);
    SetTwo(body, a, b);
    SetText(body, c.container, c.slot, c.text);
  }

  // The assignments of build_ingress to its copy.
  method SetIngress(body: Node, host: string, secret: string)
    requires body.Valid() && IngressTemplate(body.Value)
    modifies body.Repr
    ensures body.Valid() && fresh(body.Repr - old(body.Repr))
    ensures body.Value == IngressFor(old(body.Value), host, secret)
  {
    ChangesApply(body.Value, host);
    SetTexts(body, HostChange(host), NAME_CHANGE, PORT_CHANGE);
    var tls := NewTls(host, secret);
    Assign(body, SPEC, Field("tls"), tls);
  }

  method NewTls(host: string, secret: string) returns (n: Node)
    ensures n.Valid() && fresh(n.Repr) && n.Value == TlsList(host, secret)
  {
    var hostText := NewText(host);
    var hosts := NewList(hostText);
    var entry := NewPair("secretName", secret, "hosts", hosts);
    n := NewList(entry);
  }

  // The number of items of the list that the path leads to.
  method CountItems(n: Node, path: seq<Slot>) returns (count: nat)
    requires n.Valid() && HasPath(n.Value, path)
    ensures count == |At(n.Value, path).kids|
    decreases |path|
  {
    if path == [] {
      assert n.kids.Keys == n.Value.kids.Keys;
      assert |n.kids| == |n.kids.Keys| && |n.Value.kids| == |n.Value.kids.Keys|;
      count := |n.kids|;
    } else {
      count := CountItems(n.kids[path[0]], path[1..]);
    }
  }

  method AddEntry(body: Node, list: seq<Slot>, index: nat, name: string, text: string)
    requires body.Valid() && HasPath(body.Value, list)
    modifies body.Repr
    ensures body.Valid() && fresh(body.Repr - old(body.Repr))
    ensures body.Value == Put(old(body.Value), list, Item(index), EnvEntry(name, text))
  {
    var value := NewText(text);
    var entry := NewPair("name", name, "value", value);
    Assign(body, list, Item(index), entry);
  }

  method ExtendList(body: Node, list: seq<Slot>, name: string, text: string, name': string, text': string)
    requires body.Valid() && HasPath(body.Value, list)
    modifies body.Repr
    ensures body.Valid() && fresh(body.Repr - old(body.Repr))
    ensures body.Value == Extended(old(body.Value), list, EnvEntry(name, text), EnvEntry(name', text'))
  {
    var n := CountItems(body, list);
    ghost var first, second := EnvEntry(name, text), EnvEntry(name', text');
    ExtendedAt(body.Value, list, n, first, second);
    AddTwo(body, list, n, first, name, text, name', text');
  }

  lemma ExtendedAt(t: Tree, list: seq<Slot>, n: nat, first: Tree, second: Tree)
    requires HasPath(t, list) && n == |At(t, list).kids|
    ensures HasPath(Put(t, list, Item(n), first), list)
    ensures Extended(t, list, first, second) == Put(Put(t, list, Item(n), first), list, Item(n + 1), second)
  {
    PutThere(t, list, Item(n), first);
  }

  method AddTwo(
    body: Node, list: seq<Slot>, n: nat, ghost first: Tree, name: string, text: string, name': string, text': string)
    requires body.Valid() && HasPath(body.Value, list) && first == EnvEntry(name, text)
    requires HasPath(Put(body.Value, list, Item(n), first), list)
    modifies body.Repr
    ensures body.Valid() && fresh(body.Repr - old(body.Repr))
    ensures body.Value == Put(Put(old(body.Value), list, Item(n), first), list, Item(n + 1), EnvEntry(name', text'))
  {
    AddEntry(body, list, n, name, text);
    AddEntry(body, list, n + 1, name', text');
  }

  // The extension of build_hub_deployment's copy.
  method ExtendEnv(body: Node, domain: string, realm: string)
    requires body.Valid() && HasPath(body.Value, CONTAINER_ENV)
    modifies body.Repr
    ensures body.Valid() && fresh(body.Repr - old(body.Repr))
    ensures body.Value == HubDeploymentFor(old(body.Value), domain, realm)
  {
    ExtendList(body, CONTAINER_ENV, "HUB_BASE_DOMAIN", domain, "KEYCLOAK_REALM_URL", realm);
  }

  // ---- Any use of the store ----

  datatype Use = Copy(path: string) | Ingress(typeName: string, domain: string, secret: string)
               | Hub(domain: string, realm: string)

  ghost predicate Allowed(files: map<string, Tree>, use: Use) {
    match use
    case Copy(path) => path in files
    case Ingress(_, _, _) => "hub/ingress.yaml" in files && IngressTemplate(files["hub/ingress.yaml"])
    case Hub(_, _) => "hub/hub-deployment.yaml" in files && HasPath(files["hub/hub-deployment.yaml"], CONTAINER_ENV)
  }

  // What a use yields, from the files alone.
  ghost function Yield(files: map<string, Tree>, use: Use): Tree
    requires Allowed(files, use)
  {
    match use
    case Copy(path) => files[path]
    case Ingress(typeName, domain, secret) => IngressFor(files["hub/ingress.yaml"], typeName + "." + domain, secret)
    case Hub(domain, realm) => HubDeploymentFor(files["hub/hub-deployment.yaml"], domain, realm)
  }

  method Serve(store: ManifestStore, use: Use) returns (body: Node)
    requires store.Valid() && Allowed(store.files, use)
    modifies store
    ensures store.Valid() && old(store.Cached) <= store.Cached && fresh(store.Cached - old(store.Cached))
    ensures body.Valid() && fresh(body.Repr) && body.Repr !! store.Cached
    ensures body.Value == Yield(store.files, use)
  {
    match use
    case Copy(path) => body := store.Manifest(path);
    case Ingress(typeName, domain, secret) => body := store.BuildIngress(typeName, domain, secret);
    case Hub(domain, realm) => body := store.BuildHubDeployment(domain, realm);
  }

  // Code of the callers: its contract lets it change every node that it was ever given, in any way.
  method CallerCode(ghost handed: set<Node>)
    modifies handed
  {
  }

  /** Any sequence of uses, with arbitrary changes by the callers to everything they hold in between: each
      result is new and depends on the files alone, and the cache stays true to them. */
  method Session(store: ManifestStore, uses: seq<Use>) returns (ghost results: seq<Tree>)
    requires store.Valid() && forall i :: 0 <= i < |uses| ==> Allowed(store.files, uses[i])
    modifies store
    ensures store.Valid()
    ensures |results| == |uses|
    ensures forall i :: 0 <= i < |uses| ==> results[i] == Yield(store.files, uses[i])
  {
    results := [];
    ghost var handed: set<Node> := {};
    for i := 0 to |uses|
      invariant store.Valid() && handed !! store.Cached && fresh(handed)
      invariant old(store.Cached) <= store.Cached && fresh(store.Cached - old(store.Cached))
      invariant |results| == i
      invariant forall j :: 0 <= j < i ==> results[j] == Yield(store.files, uses[j])
    {
      var body := Serve(store, uses[i]);
      results := results + [body.Value];
      handed := handed + body.Repr;
      CallerCode(handed);
    }
  }
}
