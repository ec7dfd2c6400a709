/** The stand-in for the authentication and document-store SDK: documents
    and a users index kept in browser storage as dictionaries, a stored
    session, and the current user object. Storage is modelled by the maps it
    holds (every write is read back unchanged), delays are left out, and the
    random parts of generated ids and e-mail addresses are inputs. */
module MockFirebase {
  import opened Wrappers
  import opened JsText

  // ---------------------------------------------------------------- documents

  /** A stored document: `null`, or an object whose fields are text. */
  datatype DocData = JsNull | JsObject(fields: map<string, string>)

  datatype DocRef = DocRef(path: string, id: string)

  /** `doc(db, collection, id)`. */
  function Doc(collection: string, id: string): (r: DocRef)
    ensures r.id == id && r.path == collection + "/" + id
    ensures StartsWith(r.path, collection + "/")
  {
    DocRef(collection + "/" + id, id)
  }

  /** Within collections whose names hold no '/', a path names one
      collection and one id. */
  lemma DocInjective(c1: string, i1: string, c2: string, i2: string)
    requires '/' !in c1 && '/' !in c2
    requires Doc(c1, i1).path == Doc(c2, i2).path
    ensures c1 == c2 && i1 == i2
  {
    var p := Doc(c1, i1).path;
    var k := IndexOf(p, '/');
    FirstSlash(c1, i1);
    FirstSlash(c2, i2);
    assert c1 == p[..k] == c2;
    assert i1 == p[k + 1..] == i2;
  }

  lemma FirstSlash(c: string, id: string)
    requires '/' !in c
    ensures var p := c + "/" + id; '/' in p && IndexOf(p, '/') == |c| && p[..|c|] == c && p[|c| + 1..] == id
  {
    var p := c + "/" + id;
    assert p[|c|] == '/';
    assert p[..|c|] == c;
  }

  /** What `getDoc` reports: `exists()`, here `found`, is `!!data`, so a stored `null`
      does not exist either. */
  datatype Snapshot = Snapshot(found: bool, data: Option<DocData>)

  function Read(store: map<string, DocData>, ref: DocRef): (s: Snapshot)
    ensures s.found <==> ref.path in store && store[ref.path].JsObject?
    ensures ref.path !in store ==> s.data.None?
  {
    if ref.path in store then Snapshot(store[ref.path].JsObject?, Some(store[ref.path])) else Snapshot(false, None)
  }

  /** A written document reads back as written, and every other path reads
      as before. */
  lemma ReadAfterWrite(store: map<string, DocData>, ref: DocRef, d: DocData, other: DocRef)
    ensures Read(store[ref.path := d], ref) == Snapshot(d.JsObject?, Some(d))
    ensures other.path != ref.path ==> Read(store[ref.path := d], other) == Read(store, other)
  {
  }

  /** A path never written does not exist. */
  lemma ReadNeverWritten(ref: DocRef)
    ensures !Read(map[], ref).found && Read(map[], ref).data.None?
  {
  }

  // ---------------------------------------------------------------- users index

  type Entry = map<string, string>

  /** The key `users[data.email]` writes to: a missing e-mail is the
      property name "undefined". */
  function EmailKey(fields: map<string, string>): string {
    if "email" in fields then fields["email"] else "undefined"
  }

  /** The users index after `setDoc` on a `users/` path: the document plus
      `uid: docRef.id`, under its e-mail. */
  function Indexed(users: map<string, Entry>, fields: map<string, string>, id: string): (r: map<string, Entry>)
    ensures r.Keys == users.Keys + {EmailKey(fields)}
    ensures "uid" in r[EmailKey(fields)] && r[EmailKey(fields)]["uid"] == id
    ensures forall k :: k in users && k != EmailKey(fields) ==> r[k] == users[k]
  {
    users[EmailKey(fields) := fields["uid" := id]]
  }

  /** Every entry sits under its own e-mail. */
  predicate IndexValid(users: map<string, Entry>) {
    forall k :: k in users ==> EmailKey(users[k]) == k
  }

  lemma IndexedValid(users: map<string, Entry>, fields: map<string, string>, id: string)
    requires IndexValid(users)
    ensures IndexValid(Indexed(users, fields, id))
  {
    var r := Indexed(users, fields, id);
    forall k | k in r ensures EmailKey(r[k]) == k {
      if k == EmailKey(fields) {
        assert r[k] == fields["uid" := id];
        assert ("email" in r[k]) == ("email" in fields);
      }
    }
  }

  /** `Object.values(users).find(u => u.email === email)`: the entry whose
      `email` field is the address. */
  function FindUser(users: map<string, Entry>, email: string): (r: Option<Entry>)
    ensures r.Some? ==> r.value in users.Values && "email" in r.value && r.value["email"] == email
  {
    if email in users && "email" in users[email] && users[email]["email"] == email then Some(users[email]) else None
  }

  /** In a valid index at most one entry has a given e-mail, so looking it
      up under the address finds exactly the entry `find` would. */
  lemma FindUserComplete(users: map<string, Entry>, email: string)
    requires IndexValid(users)
    ensures forall k :: k in users && "email" in users[k] && users[k]["email"] == email ==> FindUser(users, email) == Some(users[k])
    ensures FindUser(users, email).None? ==> forall u :: u in users.Values ==> !("email" in u && u["email"] == email)
  {
    forall u | u in users.Values && "email" in u && u["email"] == email ensures FindUser(users, email).Some? {
      var k :| k in users && users[k] == u;
      assert EmailKey(u) == k;
    }
  }

  // ---------------------------------------------------------------- auth

  const EmailInUse := "auth/email-already-in-use"
  const TypeError := "TypeError"

  /** A user object; `updateProfile` changes it in place, so every holder of
      it sees the new name. */
  class User {
    var uid: string
    var email: string
    var displayName: string
    var photoUrl: Option<string>

    constructor (uid: string, email: string, displayName: string, photoUrl: Option<string>)
      ensures this.uid == uid && this.email == email && this.displayName == displayName && this.photoUrl == photoUrl
    {
      this.uid := uid;
      this.email := email;
      this.displayName := displayName;
      this.photoUrl := photoUrl;
    }
  }

  /** The JSON text of a user as stored in the session. */
  datatype UserRecord = UserRecord(uid: string, email: string, displayName: string, photoUrl: Option<string>)

  function Record(u: User): UserRecord
    reads u
  {
    UserRecord(u.uid, u.email, u.displayName, u.photoUrl)
  }

  class Store {
    /** `db_firestore`. */
    var firestore: map<string, DocData>
    /** `db_users`. */
    var users: map<string, Entry>
    /** `user_session`. */
    var session: Option<UserRecord>
    /** `auth.currentUser`. */
    var currentUser: User?

    ghost predicate Valid()
      reads this
    {
      IndexValid(users)
    }

    /** Empty storage and no one signed in. */
    constructor ()
      ensures firestore == map[] && users == map[] && session.None? && currentUser == null
      ensures Valid()
    {
      firestore := map[];
      users := map[];
      session := None;
      currentUser := null;
    }

    function GetDoc(ref: DocRef): (s: Snapshot)
      reads this
    {
      Read(firestore, ref)
    }

    /** `setDoc`: the document is stored under its path; on a `users/` path
        it is also indexed under its e-mail with the reference's id as
        `uid`. A `null` document there has no e-mail to read: the store is
        written and the call then throws. */
    method SetDoc(ref: DocRef, data: DocData) returns (r: Result<bool, string>)
      requires Valid()
      modifies this`firestore, this`users
      ensures Valid()
      ensures firestore == old(firestore)[ref.path := data]
      ensures !StartsWith(ref.path, "users/") ==> r == Success(true) && users == old(users)
      ensures StartsWith(ref.path, "users/") && data.JsNull? ==> r == Failure(TypeError) && users == old(users)
      ensures StartsWith(ref.path, "users/") && data.JsObject? ==>
                r == Success(true) && users == Indexed(old(users), data.fields, ref.id)
    {
      firestore := firestore[ref.path := data];
      if StartsWith(ref.path, "users/") {
        if data.JsNull? {
          return Failure(TypeError);
        }
        IndexedValid(users, data.fields, ref.id);
        users := Indexed(users, data.fields, ref.id);
      }
      r := Success(true);
    }

    /** `createUserWithEmailAndPassword`: an address already in the index is
        refused and nothing changes; otherwise a fresh user with an empty
        name becomes the session and the current user, and the index is left
        alone (only a later `setDoc` adds to it). */
    method CreateUser(email: string, suffix: string) returns (r: Result<User, string>)
      requires Valid()
      modifies this`session, this`currentUser
      ensures Valid()
      ensures r.Failure? <==> email in users
      ensures r.Failure? ==> r.error == EmailInUse && session == old(session) && currentUser == old(currentUser)
      ensures r.Success? ==> fresh(r.value) && currentUser == r.value
      ensures r.Success? ==> Record(r.value) == UserRecord("user_" + suffix, email, "", None) && session == Some(Record(r.value))
    {
      if email in users {
        return Failure(EmailInUse);
      }
      var u := new User("user_" + suffix, email, "", None);
      session := Some(Record(u));
      currentUser := u;
      r := Success(u);
    }

    /** `signInWithEmailAndPassword` never fails: the indexed entry for the
        address supplies the uid and name when it has them, else a fresh uid
        and "Demo User". */
    method SignIn(email: string, suffix: string) returns (u: User)
      requires Valid()
      modifies this`session, this`currentUser
      ensures Valid()
      ensures fresh(u) && currentUser == u && session == Some(Record(u))
      ensures u.email == email && u.photoUrl.None?
      ensures var entry := FindUser(users, email);
        && u.uid == OrElse(if entry.Some? && "uid" in entry.value then Some(entry.value["uid"]) else None, Some("user_" + suffix)).value
        && u.displayName == OrElse(if entry.Some? && "name" in entry.value then Some(entry.value["name"]) else None, Some("Demo User")).value
    {
      var entry := FindUser(users, email);
      var uid := OrElse(if entry.Some? && "uid" in entry.value then Some(entry.value["uid"]) else None, Some("user_" + suffix)).value;
      var name := OrElse(if entry.Some? && "name" in entry.value then Some(entry.value["name"]) else None, Some("Demo User")).value;
      u := new User(uid, email, name, None);
      session := Some(Record(u));
      currentUser := u;
    }

    /** `signInWithPopup`: a generated Gmail address `user_<n>@gmail.com`
        with n below 1000, a `google_` uid and the fixed name and photo. */
    method SignInWithPopup(n: nat, suffix: string) returns (u: User)
      requires Valid() && n < 1000
      modifies this`session, this`currentUser
      ensures Valid()
      ensures fresh(u) && currentUser == u && session == Some(Record(u))
      ensures Record(u) == UserRecord("google_" + suffix, "user_" + NatToString(n) + "@gmail.com", "Google User",
                                      Some("https://lh3.googleusercontent.com/a/default-user"))
    {
      u := new User("google_" + suffix, "user_" + NatToString(n) + "@gmail.com", "Google User",
                    Some("https://lh3.googleusercontent.com/a/default-user"));
      session := Some(Record(u));
      currentUser := u;
    }

    /** `signOut`: no session and no current user. */
    method SignOut()
      requires Valid()
      modifies this`session, this`currentUser
      ensures Valid()
      ensures session.None? && currentUser == null
    {
      session := None;
      currentUser := null;
    }

    /** `updateProfile`: the given user object is renamed in place and
        becomes the stored session. */
    method UpdateProfile(u: User, displayName: string)
      requires Valid()
      modifies u`displayName, this`session
      ensures Valid()
      ensures u.displayName == displayName && u.uid == old(u.uid) && u.email == old(u.email)
      ensures session == Some(Record(u))
    {
      u.displayName := displayName;
      session := Some(Record(u));
    }
  }

  /** After `setDoc` of a user document with an e-mail, that e-mail is
      taken: a later `createUserWithEmailAndPassword` on it is refused, and
      signing in with it finds the document. */
  lemma IndexedUserIsTaken(users: map<string, Entry>, fields: map<string, string>, id: string)
    requires IndexValid(users) && "email" in fields
    ensures fields["email"] in Indexed(users, fields, id)
    ensures FindUser(Indexed(users, fields, id), fields["email"]) == Some(fields["uid" := id])
  {
    var r := Indexed(users, fields, id);
    assert r[fields["email"]] == fields["uid" := id];
  }
}
