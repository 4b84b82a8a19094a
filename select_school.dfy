/** The teacher's school-selection page: `load` lists the schools and the one
    the teacher has asked to join; the action records the request and mails
    every admin of the chosen school a link carrying a uid-only token. */
module SelectSchool {
  import opened Js
  import opened App
  import opened Kit
  import Jwt
  import Dgraph
  import Mail
  import Hooks

  const RequestTaken: string := "Votre demande a bien été prise en compte !"

  /** One row of the `schools` query. */
  datatype SchoolRow = SchoolRow(uid: Dgraph.Uid, name: string, address: string)

  datatype PageData = PageData(schools: seq<SchoolRow>, pendingSchool: Option<SchoolRow>)

  /** `schools.find(({ uid }) => uid === pendingJoin)`: the first row whose uid
      is the target; none when there is no target or no row has it. */
  function FindSchool(schools: seq<SchoolRow>, target: Option<Dgraph.Uid>): (r: Option<SchoolRow>)
    ensures r.None? <==> forall i :: 0 <= i < |schools| ==> target != Some(schools[i].uid)
    ensures r.Some? ==> exists i :: && 0 <= i < |schools| && schools[i] == r.value
                                    && target == Some(schools[i].uid)
                                    && forall j :: 0 <= j < i ==> target != Some(schools[j].uid)
  {
    if |schools| == 0 then None
    else if target == Some(schools[0].uid) then Some(schools[0])
    else
      var r := FindSchool(schools[1..], target);
      if r.Some? then
        var i :| && 0 <= i < |schools[1..]| && schools[1..][i] == r.value
                 && target == Some(schools[1..][i].uid)
                 && forall j :: 0 <= j < i ==> target != Some(schools[1..][j].uid);
        assert schools[i + 1] == r.value;
        r
      else r
  }

  /** The `pendingJoin` target of `uid`, if it has one. */
  function PendingTarget(pendingJoin: map<Dgraph.Uid, Dgraph.Uid>, uid: Dgraph.Uid): (t: Option<Dgraph.Uid>)
    ensures t.Some? <==> uid in pendingJoin
    ensures t.Some? ==> t.value == pendingJoin[uid]
  {
    if uid in pendingJoin then Some(pendingJoin[uid]) else None
  }

  /** The `schools` rows describe exactly the School nodes of the store. */
  ghost predicate Lists(schools: seq<SchoolRow>, nodes: map<Dgraph.Uid, Dgraph.Node>) {
    && (forall i :: 0 <= i < |schools| ==>
          && schools[i].uid in nodes && nodes[schools[i].uid].School?
          && schools[i].name == nodes[schools[i].uid].name
          && schools[i].address == nodes[schools[i].uid].address)
    && (forall u :: u in nodes && nodes[u].School? ==> exists i :: 0 <= i < |schools| && schools[i].uid == u)
  }

  /** `load`. `schools` is the query's answer. It dereferences `currentUser`
      without a check, so an anonymous request fails; otherwise the list is
      returned unchanged, with the school the teacher asked to join. */
  function Load(currentUser: Session, schools: seq<SchoolRow>, pendingJoin: map<Dgraph.Uid, Dgraph.Uid>)
    : (r: LoadResult<PageData>)
    ensures r.Thrown? <==> !currentUser.SignedIn? || !currentUser.user.uid.Str?
    ensures !r.Redirect?
    ensures r.Data? ==> r.data.schools == schools
    ensures r.Data? ==> var uid := currentUser.user.uid.s;
              && (r.data.pendingSchool.None? <==>
                    uid !in pendingJoin || forall i :: 0 <= i < |schools| ==> schools[i].uid != pendingJoin[uid])
              && (r.data.pendingSchool.Some? ==>
                    r.data.pendingSchool.value in schools && r.data.pendingSchool.value.uid == pendingJoin[uid])
  {
    if !currentUser.SignedIn? || !currentUser.user.uid.Str? then LoadResult.Thrown
    else
      var uid := currentUser.user.uid.s;
      Data(PageData(schools := schools, pendingSchool := FindSchool(schools, PendingTarget(pendingJoin, uid))))
  }

  /** A teacher who asked to join a school of the store sees that school, with
      its stored name and address, as the pending one. */
  lemma {:induction false} PendingSchoolShown(user: CurrentUser, schools: seq<SchoolRow>,
                                              nodes: map<Dgraph.Uid, Dgraph.Node>, pendingJoin: map<Dgraph.Uid, Dgraph.Uid>)
    requires Lists(schools, nodes)
    requires user.uid.Str? && user.uid.s in pendingJoin
    requires pendingJoin[user.uid.s] in nodes && nodes[pendingJoin[user.uid.s]].School?
    ensures var target := pendingJoin[user.uid.s];
            Load(SignedIn(user), schools, pendingJoin)
            == Data(PageData(schools, Some(SchoolRow(target, nodes[target].name, nodes[target].address))))
  {
    var target := pendingJoin[user.uid.s];
    var k :| 0 <= k < |schools| && schools[k].uid == target;
    var found := FindSchool(schools, Some(target));
    assert found.Some?;
    var i :| 0 <= i < |schools| && schools[i] == found.value && Some(target) == Some(schools[i].uid);
  }

  /** The `schoolUid` field: a non-empty text, or the 400 failure. */
  function SchoolUidField(form: Form): (r: Option<Dgraph.Uid>)
    ensures r.Some? <==> "schoolUid" in form && form["schoolUid"].Text? && form["schoolUid"].s != ""
    ensures r.Some? ==> r.value == form["schoolUid"].s
  {
    match TextField(form, "schoolUid")
    case Some(s) => if s == "" then None else Some(s)
    case None => None
  }

  /** The acceptance token's payload: the requester's uid and nothing else. */
  function AcceptClaims(uid: Value): (p: Value)
    ensures p.Obj? && p.fields.Keys == {"uid"} && Prop(p, "uid") == uid
  {
    Obj(map["uid" := uid])
  }

  /** The path of the acceptance link. */
  function AcceptPath(token: string): (path: string)
    ensures |path| == 24 + |token| && path[..24] == "/teacher/accept-teacher/" && path[24..] == token
  {
    "/teacher/accept-teacher/" + token
  }

  /** The `admins` query: the teachers whose `school` edge points to `target`
      with the `admin` facet true. */
  function Admins(nodes: map<Dgraph.Uid, Dgraph.Node>, school: map<Dgraph.Uid, Dgraph.SchoolEdge>, target: Dgraph.Uid)
    : (admins: set<Dgraph.Uid>)
    ensures forall u :: u in admins <==>
              && u in nodes && nodes[u].Person? && "Teacher" in nodes[u].types
              && u in school && school[u] == Dgraph.SchoolEdge(target, true)
  {
    set u | u in nodes && nodes[u].Person? && "Teacher" in nodes[u].types
                       && u in school && school[u] == Dgraph.SchoolEdge(target, true)
  }

  /** The mail to `admin`, telling them `requester` wishes to join. */
  function RequestMail(nodes: map<Dgraph.Uid, Dgraph.Node>, admin: Dgraph.Uid, requester: CurrentUser, token: string)
    : Mail.Message
    requires admin in nodes && nodes[admin].Person?
  {
    Mail.Message(Mail.JoinRequest(requester.name, requester.email),
                 Str(nodes[admin].email), Str(nodes[admin].name), AcceptPath(token))
  }

  /** `order` lists every element of `s` exactly once. */
  ghost predicate Enumerates(order: seq<Dgraph.Uid>, s: set<Dgraph.Uid>) {
    && (forall u :: u in order <==> u in s)
    && (forall i, j :: 0 <= i < j < |order| ==> order[i] != order[j])
  }

  /** The mails sent to the admins in the order `order`. */
  function RequestMails(nodes: map<Dgraph.Uid, Dgraph.Node>, order: seq<Dgraph.Uid>, requester: CurrentUser, token: string)
    : (mails: seq<Mail.Message>)
    requires forall u :: u in order ==> u in nodes && nodes[u].Person?
    ensures |mails| == |order|
    ensures forall i :: 0 <= i < |order| ==> mails[i] == RequestMail(nodes, order[i], requester, token)
  {
    if |order| == 0 then []
    else RequestMails(nodes, order[..|order| - 1], requester, token)
         + [RequestMail(nodes, order[|order| - 1], requester, token)]
  }

  /** Mailing one more admin appends their mail. */
  lemma {:induction false} RequestMailsAppend(nodes: map<Dgraph.Uid, Dgraph.Node>, order: seq<Dgraph.Uid>, admin: Dgraph.Uid,
                                              requester: CurrentUser, token: string)
    requires forall u :: u in order ==> u in nodes && nodes[u].Person?
    requires admin in nodes && nodes[admin].Person?
    ensures RequestMails(nodes, order + [admin], requester, token)
            == RequestMails(nodes, order, requester, token) + [RequestMail(nodes, admin, requester, token)]
  {
    assert (order + [admin])[..|order|] == order;
  }

  /** Whatever order the admins are mailed in, there are as many mails as
      admins, each is the request mail of an admin, and each carries the
      acceptance link. */
  lemma {:induction false} MailsMatchAdmins(nodes: map<Dgraph.Uid, Dgraph.Node>, school: map<Dgraph.Uid, Dgraph.SchoolEdge>,
                                            target: Dgraph.Uid, order: seq<Dgraph.Uid>, requester: CurrentUser, token: string)
    requires Enumerates(order, Admins(nodes, school, target))
    ensures |RequestMails(nodes, order, requester, token)| == |Admins(nodes, school, target)|
    ensures forall i :: 0 <= i < |order| ==>
              && order[i] in Admins(nodes, school, target)
              && RequestMails(nodes, order, requester, token)[i] == RequestMail(nodes, order[i], requester, token)
              && RequestMails(nodes, order, requester, token)[i].link == AcceptPath(token)
  {
    EnumerationSize(order, Admins(nodes, school, target));
    forall i | 0 <= i < |order| ensures order[i] in Admins(nodes, school, target) {
      assert order[i] in order;
    }
  }

  /** Whatever order the admins are mailed in, each admin receives exactly one
      mail: they appear once in the enumeration, and no other person shares
      their email address. */
  lemma {:induction false} OneMailPerAdmin(nodes: map<Dgraph.Uid, Dgraph.Node>, byEmail: map<string, Dgraph.Uid>,
                                           school: map<Dgraph.Uid, Dgraph.SchoolEdge>, target: Dgraph.Uid,
                                           order: seq<Dgraph.Uid>, requester: CurrentUser, token: string, a: Dgraph.Uid)
    requires Dgraph.IndexValid(nodes, byEmail)
    requires Enumerates(order, Admins(nodes, school, target))
    requires a in Admins(nodes, school, target)
    ensures exists i :: && 0 <= i < |order| && RequestMails(nodes, order, requester, token)[i] == RequestMail(nodes, a, requester, token)
                        && forall j :: 0 <= j < |order| && RequestMails(nodes, order, requester, token)[j].to == Str(nodes[a].email) ==> j == i
  {
    var mails := RequestMails(nodes, order, requester, token);
    var i :| 0 <= i < |order| && order[i] == a;
    forall j | 0 <= j < |order| && mails[j].to == Str(nodes[a].email)
      ensures j == i
    {
      assert order[j] in order;
      Dgraph.EmailsUnique(nodes, byEmail, order[j], a);
    }
  }

  /** An enumeration of a set is as long as the set is large. */
  lemma {:induction false} EnumerationSize(order: seq<Dgraph.Uid>, s: set<Dgraph.Uid>)
    requires Enumerates(order, s)
    ensures |order| == |s|
  {
    assert (set i | 0 <= i < |order| :: order[i]) == s by {
      forall a | a in s ensures a in (set i | 0 <= i < |order| :: order[i]) {
        var i :| 0 <= i < |order| && order[i] == a;
      }
    }
    DistinctCardinality(order);
  }

  /** A sequence without repetitions has as many elements as the set of them. */
  lemma {:induction false} DistinctCardinality(order: seq<Dgraph.Uid>)
    requires forall i, j :: 0 <= i < j < |order| ==> order[i] != order[j]
    ensures |set i | 0 <= i < |order| :: order[i]| == |order|
  {
    if |order| > 0 {
      var init := order[..|order| - 1];
      DistinctCardinality(init);
      assert (set i | 0 <= i < |order| :: order[i])
          == (set i | 0 <= i < |init| :: init[i]) + {order[|order| - 1]};
      assert order[|order| - 1] !in (set i | 0 <= i < |init| :: init[i]);
    }
  }

  /** `admins.forEach(...)`: one request mail per admin, in whatever order
      the set is walked. */
  method NotifyAdmins(nodes: map<Dgraph.Uid, Dgraph.Node>, admins: set<Dgraph.Uid>, requester: CurrentUser,
                      token: string, outbox: Mail.Outbox)
    requires forall a :: a in admins ==> a in nodes && nodes[a].Person?
    modifies outbox
    ensures exists order :: && Enumerates(order, admins)
                            && outbox.sent == old(outbox.sent) + RequestMails(nodes, order, requester, token)
  {
    var remaining := admins;
    ghost var order: seq<Dgraph.Uid> := [];
    while remaining != {}
      invariant remaining <= admins
      invariant forall u :: u in order <==> u in admins && u !in remaining
      invariant forall i, j :: 0 <= i < j < |order| ==> order[i] != order[j]
      invariant outbox.sent == old(outbox.sent) + RequestMails(nodes, order, requester, token)
      decreases remaining
    {
      var admin :| admin in remaining;
      outbox.Send(RequestMail(nodes, admin, requester, token));
      RequestMailsAppend(nodes, order, admin, requester, token);
      order := order + [admin];
      remaining := remaining - {admin};
    }
  }

  /** `actions.default`. `now` is the request instant; `uid`, `name` and
      `email` are read from the session before anything else. */
  method Action(form: Form, codec: Jwt.Codec, now: int, graph: Dgraph.Graph, locals: Locals, outbox: Mail.Outbox)
    returns (r: ActionResult)
    requires graph.Valid()
    modifies graph, outbox
    ensures graph.Valid()
    ensures graph.nodes == old(graph.nodes) && graph.byEmail == old(graph.byEmail) && graph.school == old(graph.school)
    ensures r.Thrown? <==>
              !locals.currentUser.SignedIn? || (SchoolUidField(form).Some? && !locals.currentUser.user.uid.Str?)
    ensures r.Fail? <==> locals.currentUser.SignedIn? && SchoolUidField(form).None?
    ensures r.Fail? ==> r == Fail(400, Some(InvalidFormat))
    ensures !r.Ok? ==> graph.pendingJoin == old(graph.pendingJoin) && outbox.sent == old(outbox.sent)
    ensures r.Ok? ==>
              var user := locals.currentUser.user;
              var schoolUid := SchoolUidField(form).value;
              var token := codec.sign(AcceptClaims(user.uid), now + Jwt.ThirtyDays);
              && r == Ok(RequestTaken)
              && graph.pendingJoin == old(graph.pendingJoin)[user.uid.s := schoolUid]
              && exists order :: && Enumerates(order, Admins(graph.nodes, graph.school, schoolUid))
                                 && outbox.sent == old(outbox.sent) + RequestMails(graph.nodes, order, user, token)
  {
    if !locals.currentUser.SignedIn? {
      return ActionResult.Thrown;
    }
    var user := locals.currentUser.user;

    var schoolUid := SchoolUidField(form);
    if schoolUid.None? {
      return Fail(400, Some(InvalidFormat));
    }
    if !user.uid.Str? {
      return ActionResult.Thrown;
    }

    graph.SetPendingJoin(user.uid.s, schoolUid.value);

    var admins := Admins(graph.nodes, graph.school, schoolUid.value);
    var jwt := codec.sign(AcceptClaims(user.uid), now + Jwt.ThirtyDays);

    NotifyAdmins(graph.nodes, admins, user, jwt, outbox);

    r := Ok(RequestTaken);
  }

  /** The acceptance token is signed with the session key, so placed in the
      `Auth` cookie it opens a session for the requester: uid only, every other
      field undefined and the email counted as verified. */
  lemma {:induction false} AcceptanceTokenOpensSession(codec: Jwt.Codec, uid: Value, now: int, later: int)
    requires Jwt.Sound(codec)
    requires now <= later < now + Jwt.ThirtyDays
    ensures Hooks.SessionFromCookie(Some(codec.sign(AcceptClaims(uid), now + Jwt.ThirtyDays)), codec, later)
            == SignedIn(CurrentUser(uid, Undefined, Undefined, Undefined, true))
  {
    Hooks.SignedTokenOpensSession(codec, AcceptClaims(uid), now + Jwt.ThirtyDays, later);
  }
}
