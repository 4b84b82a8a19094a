/** The teacher's school-creation action: a School node with the submitted
    name, address and academy, and an admin `school` edge from its creator. */
module NewSchool {
  import opened Js
  import opened App
  import opened Kit
  import Dgraph
  import SelectSchool

  /** The `NewSchool` schema's output. */
  datatype SchoolInput = SchoolInput(name: string, address: string, academy: string)

  /** `NewSchool.safeParse(...)`: the three fields must be text; the empty
      text is accepted. */
  function Parse(form: Form): (r: Option<SchoolInput>)
    ensures r.Some? <==> && TextField(form, "schoolName").Some? && TextField(form, "schoolAddress").Some?
                         && TextField(form, "academy").Some?
    ensures r.Some? ==> && Some(r.value.name) == TextField(form, "schoolName")
                        && Some(r.value.address) == TextField(form, "schoolAddress")
                        && Some(r.value.academy) == TextField(form, "academy")
  {
    var name := TextField(form, "schoolName");
    var address := TextField(form, "schoolAddress");
    var academy := TextField(form, "academy");
    if name.Some? && address.Some? && academy.Some?
    then Some(SchoolInput(name.value, address.value, academy.value))
    else None
  }

  /** The success message names the school. */
  function Created(name: string): (message: string)
    ensures |message| == |name| + 34 && message[16..16 + |name|] == name
  {
    "L'établissement " + name + " a bien été créé !"
  }

  /** `actions.default`. `uid` is read from the session before the form, so an
      anonymous request fails whatever it submits. */
  method Action(form: Form, graph: Dgraph.Graph, locals: Locals) returns (r: ActionResult)
    requires graph.Valid()
    modifies graph
    ensures graph.Valid()
    ensures graph.byEmail == old(graph.byEmail) && graph.pendingJoin == old(graph.pendingJoin)
    ensures r.Thrown? <==>
              !locals.currentUser.SignedIn? || (Parse(form).Some? && !locals.currentUser.user.uid.Str?)
    ensures r.Fail? <==> locals.currentUser.SignedIn? && Parse(form).None?
    ensures r.Fail? ==> r == Fail(400, Some(InvalidFormat))
    ensures !r.Ok? ==> graph.nodes == old(graph.nodes) && graph.school == old(graph.school)
    ensures r.Ok? ==>
              var input := Parse(form).value;
              var creator := locals.currentUser.user.uid.s;
              && r == Ok(Created(input.name))
              && exists s :: && s !in old(graph.nodes)
                             && (forall v :: v in old(graph.school) ==> old(graph.school)[v].target != s)
                             && graph.nodes == old(graph.nodes)[s := Dgraph.School(input.name, input.address, input.academy)]
                             && graph.school == old(graph.school)[creator := Dgraph.SchoolEdge(s, true)]
  {
    if !locals.currentUser.SignedIn? {
      return ActionResult.Thrown;
    }
    var uid := locals.currentUser.user.uid;

    var newSchool := Parse(form);
    if newSchool.None? {
      return Fail(400, Some(InvalidFormat));
    }
    if !uid.Str? {
      return ActionResult.Thrown;
    }

    var s := graph.AddSchool(Dgraph.School(newSchool.value.name, newSchool.value.address, newSchool.value.academy));
    graph.SetSchool(uid.s, Dgraph.SchoolEdge(s, true));

    r := Ok(Created(newSchool.value.name));
  }

  /** After the creation, the new school's admins (those a join request to it
      mails) are its creator alone when the creator is a stored teacher, and
      nobody otherwise. The new uid is one no earlier `school` edge points to,
      which the action's contract guarantees. */
  lemma {:induction false} CreatorIsSoleAdmin(nodes: map<Dgraph.Uid, Dgraph.Node>, school: map<Dgraph.Uid, Dgraph.SchoolEdge>,
                                              s: Dgraph.Uid, node: Dgraph.Node, creator: Dgraph.Uid)
    requires s !in nodes && node.School?
    requires forall u :: u in school ==> school[u].target != s
    ensures SelectSchool.Admins(nodes[s := node], school[creator := Dgraph.SchoolEdge(s, true)], s)
            == if creator in nodes && nodes[creator].Person? && "Teacher" in nodes[creator].types
                  then {creator} else {}
  {
    var nodes', school' := nodes[s := node], school[creator := Dgraph.SchoolEdge(s, true)];
    var admins := SelectSchool.Admins(nodes', school', s);
    forall u | u in admins ensures u == creator {
      if u != creator {
        assert false;
      }
    }
  }
}
