/**
 * The `/api/user` route: POST registers or renames a visitor under their
 * uuid, PUT records an e-mail address for a uuid, creating the row when it
 * is missing. The `users` table is a map from uuid to row, so the unique
 * index on `uuid` is built into the representation; `id` is the
 * auto-increment key.
 */
module UserRoute {
  import opened Js

  /** A row of `users`; `created_at` is not modelled. */
  datatype UserRow = UserRow(id: nat, uuid: string, nickname: string, typeCode: string, email: Option<string>, isPaid: int)

  /** A POST body: each field is absent (`undefined` or `null`) or a string. */
  datatype PostRequest = PostRequest(uuid: Option<string>, nickname: Option<string>, typeCode: Option<string>)

  /** A PUT body. */
  datatype PutRequest = PutRequest(uuid: Option<string>, email: Option<string>, typeCode: Option<string>, nickname: Option<string>)

  /** The JSON reply: HTTP status, `success` flag and `message`. */
  datatype Response = Response(status: nat, success: bool, message: string)

  const MissingFields: Response := Response(400, false, "Missing fields")
  const UserUpdated: Response := Response(200, true, "User updated")
  const UserCreated: Response := Response(200, true, "User created")
  const UuidAndEmailRequired: Response := Response(400, false, "UUID와 이메일은 필수 입력값입니다.")
  const EmailSaved: Response := Response(200, true, "이메일이 성공적으로 저장되었습니다.")
  const PutServerError: Response := Response(500, false, "서버 오류가 발생했습니다.")

  /**
   * The table's integrity: every row is stored under its own uuid, every id
   * was handed out by the auto-increment counter, and no two rows share an
   * id.
   */
  predicate TableInvariant(rows: map<string, UserRow>, nextId: nat) {
    && (forall u :: u in rows ==> rows[u].uuid == u && rows[u].id < nextId)
    && (forall u, v :: u in rows && v in rows && u != v ==> rows[u].id != rows[v].id)
  }

  /** The table and counter after a request, with the reply. */
  datatype Outcome = Outcome(response: Response, rows: map<string, UserRow>, nextId: nat)

  /** Every row other than the one under `uuid` is as it was, and no other row appears or disappears. */
  predicate OthersUnchanged(before: map<string, UserRow>, after: map<string, UserRow>, uuid: string) {
    && after.Keys - {uuid} == before.Keys - {uuid}
    && forall u :: u in before && u != uuid ==> u in after && after[u] == before[u]
  }

  /**
   * POST: a missing or empty uuid, nickname or type is refused with 400 and
   * changes nothing; an existing row gets the new nickname and type and keeps
   * everything else; otherwise one new row is inserted with no e-mail and
   * `is_paid` 0.
   */
  function PostOutcome(rows: map<string, UserRow>, nextId: nat, req: PostRequest): (o: Outcome)
    ensures o.response in {MissingFields, UserUpdated, UserCreated}
    ensures o.response == MissingFields <==> !(Truthy(req.uuid) && Truthy(req.nickname) && Truthy(req.typeCode))
    ensures o.response == MissingFields ==> o.rows == rows && o.nextId == nextId
    ensures o.response != MissingFields ==> OthersUnchanged(rows, o.rows, req.uuid.value) && req.uuid.value in o.rows
    ensures o.response == UserUpdated <==> o.response != MissingFields && req.uuid.value in rows
    ensures o.response == UserUpdated ==>
              var row := o.rows[req.uuid.value];
              && row.nickname == req.nickname.value && row.typeCode == req.typeCode.value
              && row.id == rows[req.uuid.value].id && row.uuid == rows[req.uuid.value].uuid
              && row.email == rows[req.uuid.value].email && row.isPaid == rows[req.uuid.value].isPaid
              && o.nextId == nextId
    ensures o.response == UserCreated ==>
              && o.rows.Keys == rows.Keys + {req.uuid.value}
              && o.rows[req.uuid.value] == UserRow(nextId, req.uuid.value, req.nickname.value, req.typeCode.value, None, 0)
              && o.nextId == nextId + 1
  {
    if !(Truthy(req.uuid) && Truthy(req.nickname) && Truthy(req.typeCode)) then
      Outcome(MissingFields, rows, nextId)
    else
      var uuid := req.uuid.value;
      if uuid in rows then
        Outcome(UserUpdated, rows[uuid := rows[uuid].(nickname := req.nickname.value, typeCode := req.typeCode.value)], nextId)
      else
        Outcome(UserCreated, rows[uuid := UserRow(nextId, uuid, req.nickname.value, req.typeCode.value, None, 0)], nextId + 1)
  }

  /**
   * PUT: a missing or empty uuid or e-mail is refused with 400; an existing
   * row gets the new e-mail and keeps everything else; otherwise a row is
   * inserted with the given e-mail, type and nickname. The check that type
   * and nickname are present is commented out in the handler, so an insert
   * without one of them violates the NOT NULL columns, the database refuses
   * it, and the handler answers 500 with the table unchanged.
   */
  function PutOutcome(rows: map<string, UserRow>, nextId: nat, req: PutRequest): (o: Outcome)
    ensures o.response in {UuidAndEmailRequired, EmailSaved, PutServerError}
    ensures o.response == UuidAndEmailRequired <==> !(Truthy(req.uuid) && Truthy(req.email))
    ensures o.response != EmailSaved ==> o.rows == rows && o.nextId == nextId
    ensures o.response == PutServerError <==>
              && Truthy(req.uuid) && Truthy(req.email) && req.uuid.value !in rows
              && (req.typeCode.None? || req.nickname.None?)
    ensures o.response == EmailSaved ==>
              && OthersUnchanged(rows, o.rows, req.uuid.value)
              && req.uuid.value in o.rows
              && o.rows[req.uuid.value].email == req.email
    ensures o.response == EmailSaved && req.uuid.value in rows ==>
              o.rows[req.uuid.value] == rows[req.uuid.value].(email := req.email) && o.nextId == nextId
    ensures o.response == EmailSaved && req.uuid.value !in rows ==>
              && o.rows.Keys == rows.Keys + {req.uuid.value}
              && o.rows[req.uuid.value] == UserRow(nextId, req.uuid.value, req.nickname.value, req.typeCode.value, req.email, 0)
              && o.nextId == nextId + 1
  {
    if !(Truthy(req.uuid) && Truthy(req.email)) then
      Outcome(UuidAndEmailRequired, rows, nextId)
    else
      var uuid := req.uuid.value;
      if uuid in rows then
        Outcome(EmailSaved, rows[uuid := rows[uuid].(email := req.email)], nextId)
      else if req.typeCode.None? || req.nickname.None? then
        Outcome(PutServerError, rows, nextId)
      else
        Outcome(EmailSaved, rows[uuid := UserRow(nextId, uuid, req.nickname.value, req.typeCode.value, req.email, 0)], nextId + 1)
  }

  /**
   * POST keeps the table's integrity, and after a successful POST exactly one
   * row carries the uuid.
   */
  lemma PostKeepsInvariant(rows: map<string, UserRow>, nextId: nat, req: PostRequest)
    requires TableInvariant(rows, nextId)
    ensures TableInvariant(PostOutcome(rows, nextId, req).rows, PostOutcome(rows, nextId, req).nextId)
    ensures PostOutcome(rows, nextId, req).response.success ==>
              var after := PostOutcome(rows, nextId, req).rows;
              && req.uuid.value in after && after[req.uuid.value].uuid == req.uuid.value
              && forall u :: u in after && after[u].uuid == req.uuid.value ==> u == req.uuid.value
  {
  }

  /** PUT keeps the table's integrity, and after a successful PUT exactly one row carries the uuid. */
  lemma PutKeepsInvariant(rows: map<string, UserRow>, nextId: nat, req: PutRequest)
    requires TableInvariant(rows, nextId)
    ensures TableInvariant(PutOutcome(rows, nextId, req).rows, PutOutcome(rows, nextId, req).nextId)
    ensures PutOutcome(rows, nextId, req).response.success ==>
              var after := PutOutcome(rows, nextId, req).rows;
              && req.uuid.value in after && after[req.uuid.value].uuid == req.uuid.value
              && forall u :: u in after && after[u].uuid == req.uuid.value ==> u == req.uuid.value
  {
  }

  /** Repeating a successful POST reports an update and leaves the table as the first one left it. */
  lemma PostRepeated(rows: map<string, UserRow>, nextId: nat, req: PostRequest)
    requires PostOutcome(rows, nextId, req).response.success
    ensures var first := PostOutcome(rows, nextId, req);
            var second := PostOutcome(first.rows, first.nextId, req);
            second.response == UserUpdated && second.rows == first.rows && second.nextId == first.nextId
  {
  }

  /**
   * Registering and then saving an e-mail yields the registered nickname and
   * type with the e-mail, whether or not the PUT repeats them.
   */
  lemma PostThenPut(rows: map<string, UserRow>, nextId: nat, post: PostRequest, email: string, put: PutRequest)
    requires PostOutcome(rows, nextId, post).response.success
    requires email != "" && put.uuid == post.uuid && put.email == Some(email)
    ensures var first := PostOutcome(rows, nextId, post);
            var second := PutOutcome(first.rows, first.nextId, put);
            && second.response == EmailSaved
            && second.rows[post.uuid.value].nickname == post.nickname.value
            && second.rows[post.uuid.value].typeCode == post.typeCode.value
            && second.rows[post.uuid.value].email == Some(email)
  {
  }

  /** A PUT for a new uuid without a nickname fails with 500: the presence check is commented out. */
  lemma PutWithoutNicknameFails(rows: map<string, UserRow>, nextId: nat, uuid: string, email: string)
    requires uuid != "" && email != "" && uuid !in rows
    ensures PutOutcome(rows, nextId, PutRequest(Some(uuid), Some(email), Some("A1"), None)).response == PutServerError
  {
  }

  /** The `users` table and its auto-increment counter. */
  class UserTable {
    var rows: map<string, UserRow>
    var nextId: nat

    ghost predicate Valid()
      reads this
    {
      TableInvariant(rows, nextId)
    }

    constructor ()
      ensures rows == map[] && nextId == 1 && Valid()
    {
      rows := map[];
      nextId := 1;
    }

    /** The POST handler: select by uuid, then update that row or insert a new one. */
    method Post(req: PostRequest) returns (response: Response)
      requires Valid()
      modifies this
      ensures Outcome(response, rows, nextId) == PostOutcome(old(rows), old(nextId), req)
      ensures Valid()
    {
      PostKeepsInvariant(rows, nextId, req);
      if !Truthy(req.uuid) || !Truthy(req.nickname) || !Truthy(req.typeCode) {
        return MissingFields;
      }
      var uuid := req.uuid.value;
      if uuid in rows {
        var existing := rows[uuid];
        rows := rows[uuid := existing.(nickname := req.nickname.value, typeCode := req.typeCode.value)];
        return UserUpdated;
      }
      rows := rows[uuid := UserRow(nextId, uuid, req.nickname.value, req.typeCode.value, None, 0)];
      nextId := nextId + 1;
      response := UserCreated;
    }

    /** The PUT handler: select by uuid, then set that row's e-mail or insert a new row. */
    method Put(req: PutRequest) returns (response: Response)
      requires Valid()
      modifies this
      ensures Outcome(response, rows, nextId) == PutOutcome(old(rows), old(nextId), req)
      ensures Valid()
    {
      PutKeepsInvariant(rows, nextId, req);
      if !Truthy(req.uuid) || !Truthy(req.email) {
        return UuidAndEmailRequired;
      }
      var uuid := req.uuid.value;
      if uuid in rows {
        var existing := rows[uuid];
        rows := rows[uuid := existing.(email := req.email)];
      } else {
        if req.typeCode.None? || req.nickname.None? {
          return PutServerError;
        }
        rows := rows[uuid := UserRow(nextId, uuid, req.nickname.value, req.typeCode.value, req.email, 0)];
        nextId := nextId + 1;
      }
      response := EmailSaved;
    }
  }
}
