/** The graph database as the handlers use it: nodes by uid, the `email`
    index the queries `eq(email, $email)` use, and the two single-valued
    edges `pendingJoin` and `school` (the latter with its `admin` facet). */
module Dgraph {
  import opened Js

  type Uid = string

  datatype Node =
    | Person(types: seq<string>, firstName: string, lastName: string, name: string, email: string,
             password: string, verifiedEmail: Option<bool>, creationDate: int)
    | School(name: string, address: string, academy: string)

  /** A `school` edge and its `school|admin` facet. */
  datatype SchoolEdge = SchoolEdge(target: Uid, admin: bool)

  /** The email index is exact: it maps each email to the one person holding
      it, and every person is indexed, so no two persons share an email.
      Every person has a `dgraph.type`. */
  ghost predicate IndexValid(nodes: map<Uid, Node>, byEmail: map<string, Uid>) {
    && (forall e :: e in byEmail ==>
          byEmail[e] in nodes && nodes[byEmail[e]].Person? && nodes[byEmail[e]].email == e)
    && (forall u :: u in nodes && nodes[u].Person? ==>
          nodes[u].email in byEmail && byEmail[nodes[u].email] == u && |nodes[u].types| > 0)
  }

  /** Two persons with the same email are the same node. */
  lemma {:induction false} EmailsUnique(nodes: map<Uid, Node>, byEmail: map<string, Uid>, u: Uid, v: Uid)
    requires IndexValid(nodes, byEmail)
    requires u in nodes && nodes[u].Person? && v in nodes && nodes[v].Person?
    requires nodes[u].email == nodes[v].email
    ensures u == v
  {
    assert byEmail[nodes[u].email] == u;
    assert byEmail[nodes[v].email] == v;
  }

  /** Adding a person under a fresh uid and an unused email keeps the index exact. */
  lemma {:induction false} AddPersonKeepsIndex(nodes: map<Uid, Node>, byEmail: map<string, Uid>, u: Uid, p: Node)
    requires IndexValid(nodes, byEmail)
    requires u !in nodes && p.Person? && p.email !in byEmail && |p.types| > 0
    ensures IndexValid(nodes[u := p], byEmail[p.email := u])
  {
    var nodes', byEmail' := nodes[u := p], byEmail[p.email := u];
    forall e | e in byEmail'
      ensures byEmail'[e] in nodes' && nodes'[byEmail'[e]].Person? && nodes'[byEmail'[e]].email == e
    {
      if e != p.email {
        assert byEmail[e] in nodes && byEmail[e] != u;
      }
    }
    forall v | v in nodes' && nodes'[v].Person?
      ensures nodes'[v].email in byEmail' && byEmail'[nodes'[v].email] == v && |nodes'[v].types| > 0
    {
      if v != u {
        assert nodes[v].email in byEmail;
      }
    }
  }

  /** The store. Queries read its fields; mutations are the methods below. */
  class Graph {
    var nodes: map<Uid, Node>
    var byEmail: map<string, Uid>
    var pendingJoin: map<Uid, Uid>
    var school: map<Uid, SchoolEdge>

    ghost predicate Valid()
      reads this
    {
      IndexValid(nodes, byEmail)
    }

    /** The uid the store assigns to a blank node (`_:newUser`, `_:school`):
        one that no node has and that no edge mentions, as the store never
        hands out a uid twice. */
    method NewUid() returns (u: Uid)
      ensures u !in nodes && u !in pendingJoin && u !in pendingJoin.Values && u !in school
      ensures forall v :: v in school ==> school[v].target != u
    {
      var used := nodes.Keys + pendingJoin.Keys + pendingJoin.Values + school.Keys
                  + (set v | v in school :: school[v].target);
      var longest: nat := 0;
      var rest := used;
      while rest != {}
        invariant rest <= used
        invariant forall k :: k in used && k !in rest ==> |k| <= longest
        decreases rest
      {
        var k :| k in rest;
        if |k| > longest {
          longest := |k|;
        }
        rest := rest - {k};
      }
      u := "0x" + seq(longest, _ => '1');
      forall v | v in school ensures school[v].target != u {
        assert school[v].target in used;
      }
    }

    /** Commits a new person node under a fresh uid. */
    method AddPerson(p: Node) returns (u: Uid)
      requires Valid()
      requires p.Person? && p.email !in byEmail && |p.types| > 0
      modifies this
      ensures Valid()
      ensures u !in old(nodes)
      ensures nodes == old(nodes)[u := p] && byEmail == old(byEmail)[p.email := u]
      ensures pendingJoin == old(pendingJoin) && school == old(school)
    {
      u := NewUid();
      AddPersonKeepsIndex(nodes, byEmail, u, p);
      nodes := nodes[u := p];
      byEmail := byEmail[p.email := u];
    }

    /** Commits a new school node under a fresh uid. */
    method AddSchool(s: Node) returns (u: Uid)
      requires Valid()
      requires s.School?
      modifies this
      ensures Valid()
      ensures u !in old(nodes)
      ensures forall v :: v in old(school) ==> old(school)[v].target != u
      ensures nodes == old(nodes)[u := s]
      ensures byEmail == old(byEmail) && pendingJoin == old(pendingJoin) && school == old(school)
    {
      u := NewUid();
      nodes := nodes[u := s];
    }

    /** Sets the `pendingJoin` edge of `u`. */
    method SetPendingJoin(u: Uid, target: Uid)
      modifies this
      ensures pendingJoin == old(pendingJoin)[u := target]
      ensures nodes == old(nodes) && byEmail == old(byEmail) && school == old(school)
    {
      pendingJoin := pendingJoin[u := target];
    }

    /** Sets the `school` edge of `u`, with its facet. */
    method SetSchool(u: Uid, edge: SchoolEdge)
      modifies this
      ensures school == old(school)[u := edge]
      ensures nodes == old(nodes) && byEmail == old(byEmail) && pendingJoin == old(pendingJoin)
    {
      school := school[u := edge];
    }
  }
}
