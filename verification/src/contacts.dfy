/**
 * The trusted-contact routes of app/api/routes/contacts.py.  A contact row
 * names its owner by user id and the contact by bipupu id; the contact
 * table is a sequence in insertion order.
 */
module Contacts {
  import opened Outcomes
  import opened Tables
  import Paging

  datatype Contact = Contact(id: nat, userId: nat, contactBipupuId: string, alias: Option<string>, createdAt: int)

  datatype User = User(bipupuId: string, username: string, nickname: Option<string>, isActive: bool)

  datatype Caller = Caller(id: nat, bipupuId: string)

  /** At most one row per (owner, contact). */
  predicate UniqueContacts(cs: seq<Contact>) {
    forall i, j :: 0 <= i < j < |cs| ==>
      !(cs[i].userId == cs[j].userId && cs[i].contactBipupuId == cs[j].contactBipupuId)
  }

  function ActiveUser(users: seq<User>, bipupuId: string): (r: Option<User>)
    ensures r.Some? ==> r.value in users && r.value.bipupuId == bipupuId && r.value.isActive
    ensures r.None? <==> forall u :: u in users ==> !(u.bipupuId == bipupuId && u.isActive)
  {
    First(users, (u: User) => u.bipupuId == bipupuId && u.isActive)
  }

  predicate Owns(c: Contact, me: Caller, contactId: string) {
    c.userId == me.id && c.contactBipupuId == contactId
  }

  function FindContact(cs: seq<Contact>, me: Caller, contactId: string): (r: Option<Contact>)
    ensures r.Some? ==> r.value in cs && Owns(r.value, me, contactId)
    ensures r.None? <==> forall c :: c in cs ==> !Owns(c, me, contactId)
  {
    First(cs, (c: Contact) => Owns(c, me, contactId))
  }

  /**
   * `create_contact`: 404 unless the contact is an active user, then 409
   * for an existing contact, and only then 400 for oneself.
   */
  function CreateContact(cs: seq<Contact>, users: seq<User>, me: Caller, contactId: string, alias: Option<string>, now: int)
    : (r: Result<(seq<Contact>, Contact)>)
    ensures ActiveUser(users, contactId).None? ==> r == Err(Http(404, "用户不存在"))
    ensures ActiveUser(users, contactId).Some? && FindContact(cs, me, contactId).Some? ==> r == Err(Http(409, "已是联系人"))
    ensures ActiveUser(users, contactId).Some? && FindContact(cs, me, contactId).None? && contactId == me.bipupuId ==>
      r == Err(Http(400, "不能添加自己为联系人"))
    ensures r.Ok? <==> ActiveUser(users, contactId).Some? && FindContact(cs, me, contactId).None? && contactId != me.bipupuId
    ensures r.Ok? ==> (r.value.0 == cs + [r.value.1] && r.value.1.userId == me.id
      && r.value.1.contactBipupuId == contactId && r.value.1.alias == alias)
    ensures r.Ok? && UniqueContacts(cs) ==> UniqueContacts(r.value.0)
  {
    if ActiveUser(users, contactId).None? then Err(Http(404, "用户不存在"))
    else if FindContact(cs, me, contactId).Some? then Err(Http(409, "已是联系人"))
    else if contactId == me.bipupuId then Err(Http(400, "不能添加自己为联系人"))
    else
      var c := Contact(NextId(cs, (x: Contact) => x.id), me.id, contactId, alias, now);
      assert forall i :: 0 <= i < |cs| ==> cs[i] in cs;
      Ok((cs + [c], c))
  }

  /** Adding oneself twice reports the duplicate, not the self-contact, once a self row exists. */
  lemma DuplicateCheckPrecedesSelfCheck(cs: seq<Contact>, users: seq<User>, me: Caller, alias: Option<string>, now: int, c: Contact)
    requires c in cs && Owns(c, me, me.bipupuId) && ActiveUser(users, me.bipupuId).Some?
    ensures CreateContact(cs, users, me, me.bipupuId, alias, now) == Err(Http(409, "已是联系人"))
  {
  }

  /** `update_contact`: 404 for a missing contact; the alias changes only when one is given. */
  function UpdateContact(cs: seq<Contact>, me: Caller, contactId: string, alias: Option<string>): (r: Result<seq<Contact>>)
    ensures r.Ok? <==> FindContact(cs, me, contactId).Some?
    ensures r.Err? ==> r.error == Http(404, "联系人不存在")
    ensures r.Ok? && alias.None? ==> r.value == cs
    ensures r.Ok? ==> |r.value| == |cs| && forall i :: 0 <= i < |cs| ==>
      r.value[i] == if cs[i] == FindContact(cs, me, contactId).value && alias.Some? then cs[i].(alias := alias) else cs[i]
  {
    match FindContact(cs, me, contactId)
    case None => Err(Http(404, "联系人不存在"))
    case Some(target) =>
      if alias.None? then Ok(cs)
      else Ok(MapWhere(cs, (c: Contact) => c == target, (c: Contact) => c.(alias := alias)))
  }

  /** `delete_contact`: 404 for a missing contact, else that row goes. */
  function DeleteContact(cs: seq<Contact>, me: Caller, contactId: string): (r: Result<seq<Contact>>)
    ensures r.Ok? <==> FindContact(cs, me, contactId).Some?
    ensures r.Err? ==> r.error == Http(404, "联系人不存在")
    ensures r.Ok? ==> forall c :: c in r.value <==> c in cs && c != FindContact(cs, me, contactId).value
    ensures r.Ok? && UniqueContacts(cs) ==> FindContact(r.value, me, contactId).None?
  {
    match FindContact(cs, me, contactId)
    case None => Err(Http(404, "联系人不存在"))
    case Some(target) =>
      var rest := Filter(cs, (c: Contact) => c != target);
      if UniqueContacts(cs) then
        forall c | c in cs && Owns(c, me, contactId) ensures c == target {
          var i :| 0 <= i < |cs| && cs[i] == c;
          var j :| 0 <= j < |cs| && cs[j] == target;
          assert i == j;
        }
        Ok(rest)
      else Ok(rest)
  }

  datatype ContactView = ContactView(contact: Contact, user: User)

  datatype ContactList = ContactList(contacts: seq<ContactView>, total: nat, page: int, pageSize: int)

  function WithActiveUsers(cs: seq<Contact>, users: seq<User>): (r: seq<ContactView>)
    ensures |r| <= |cs|
    ensures forall v :: v in r ==> v.contact in cs && v.user in users && v.user.isActive && v.user.bipupuId == v.contact.contactBipupuId
    ensures forall c :: c in cs && ActiveUser(users, c.contactBipupuId).Some? ==>
      ContactView(c, ActiveUser(users, c.contactBipupuId).value) in r
  {
    if cs == [] then []
    else
      var rest := WithActiveUsers(cs[1..], users);
      match ActiveUser(users, cs[0].contactBipupuId)
      case Some(u) => [ContactView(cs[0], u)] + rest
      case None => rest
  }

  /**
   * `get_contacts`: the total counts all of the caller's contacts; the
   * page is a window of them, newest first, keeping only active users.
   */
  function GetContacts(cs: seq<Contact>, users: seq<User>, me: Caller, page: int, pageSize: int): (r: Result<ContactList>)
    ensures r.Ok? <==> page >= 1 && 1 <= pageSize <= Paging.MaxPageSize
    ensures r.Ok? ==> r.value.total == |Filter(cs, (c: Contact) => c.userId == me.id)|
    ensures r.Ok? ==> |r.value.contacts| <= pageSize
    ensures r.Ok? ==> forall v :: v in r.value.contacts ==> v.contact in cs && v.contact.userId == me.id && v.user.isActive
  {
    if page < 1 || pageSize < 1 || pageSize > Paging.MaxPageSize then Err(Http(422, ""))
    else
      var mine := Filter(cs, (c: Contact) => c.userId == me.id);
      ReverseSameElements(mine);
      var window := Paging.Window(Reverse(mine), (page - 1) * pageSize, pageSize);
      Ok(ContactList(WithActiveUsers(window, users), |mine|, page, pageSize))
  }
}
