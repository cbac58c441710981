/** The user schema (models/userModel.js): the bcrypt-shape test, the
    pre-save hook that hashes a password once, the update hook that hashes a
    password written through an update object or pipeline, the toJSON
    scrubber, and the `User` collection with its normalised unique email. */
module UserModel {
  import opened Wrappers
  import opened Js

  // ------------------------------------------------------------ bcrypt shape

  /** A character of bcrypt's salt-and-digest alphabet `[./A-Za-z0-9]`. */
  predicate IsSaltChar(c: char) {
    c == '.' || c == '/' || 'A' <= c <= 'Z' || 'a' <= c <= 'z' || '0' <= c <= '9'
  }

  predicate IsVariant(c: char) {
    c == 'a' || c == 'b' || c == 'y'
  }

  /** `isBcryptHash`: the whole string is `$2`, a variant letter, `$`, two
      decimal digits, `$` and 53 alphabet characters. */
  predicate IsBcryptHash(s: string) {
    |s| == 60 && s[0] == '$' && s[1] == '2' && IsVariant(s[2]) && s[3] == '$'
    && IsDigit(s[4]) && IsDigit(s[5]) && s[6] == '$'
    && forall i :: 7 <= i < 60 ==> IsSaltChar(s[i])
  }

  /** The string a bcrypt implementation writes for a variant, a two-digit
      cost and a salt-and-digest body. */
  function BcryptString(variant: char, d1: char, d2: char, body: string): (s: string)
    ensures |s| == 7 + |body| && s[7..] == body
  {
    "$2" + [variant] + "$" + [d1, d2] + "$" + body
  }

  /** Every well-formed part list spells a hash-shaped string. */
  lemma BcryptStringIsHash(variant: char, d1: char, d2: char, body: string)
    requires IsVariant(variant) && IsDigit(d1) && IsDigit(d2)
    requires |body| == 53 && forall i :: 0 <= i < |body| ==> IsSaltChar(body[i])
    ensures IsBcryptHash(BcryptString(variant, d1, d2, body))
  {
    var s := BcryptString(variant, d1, d2, body);
    forall i | 7 <= i < 60 ensures IsSaltChar(s[i]) {
      assert s[i] == body[i - 7];
    }
  }

  /** Every hash-shaped string is spelled that way, so the test accepts
      exactly the strings of that form. */
  lemma HashIsBcryptString(s: string)
    requires IsBcryptHash(s)
    ensures s == BcryptString(s[2], s[4], s[5], s[7..])
    ensures |s[7..]| == 53 && forall i :: 0 <= i < 53 ==> IsSaltChar(s[7..][i])
  {
    var t := BcryptString(s[2], s[4], s[5], s[7..]);
    assert |t| == |s|;
    forall i | 0 <= i < |s| ensures t[i] == s[i] {
      if i >= 7 {
        assert t[i] == t[7..][i - 7];
      }
    }
  }

  /** A salted bcrypt hash function always returns a hash-shaped string. */
  ghost predicate HashShaped(hash: string -> string) {
    forall p :: IsBcryptHash(hash(p))
  }

  // ------------------------------------------------------------ save hook

  /** The pre-save hook: a password that is not hash-shaped is replaced by
      its hash; a hash-shaped one is kept. */
  function PreSave(password: string, hash: string -> string): (r: string)
    ensures IsBcryptHash(password) ==> r == password
    ensures !IsBcryptHash(password) ==> r == hash(password)
  {
    if IsBcryptHash(password) then password else hash(password)
  }

  /** With a real bcrypt, saving twice hashes once: the stored password is
      hash-shaped and saving it again leaves it alone. */
  lemma PreSaveOnce(password: string, hash: string -> string)
    requires HashShaped(hash)
    ensures IsBcryptHash(PreSave(password, hash))
    ensures PreSave(PreSave(password, hash), hash) == PreSave(password, hash)
  {
  }

  /** A plain password that happens to be hash-shaped is stored as given. */
  lemma HashShapedPlainKept(hash: string -> string)
    ensures var p := BcryptString('b', '1', '0', seq(53, _ => 'a'));
            IsBcryptHash(p) && PreSave(p, hash) == p
  {
    BcryptStringIsHash('b', '1', '0', seq(53, _ => 'a'));
  }

  // ------------------------------------------------------------ update hook

  /** The JavaScript values an update field can hold. */
  datatype JsVal = Undefined | Null | Str(s: string) | Num(n: int) | Bool(b: bool)

  /** JavaScript truthiness. */
  predicate Truthy(v: JsVal) {
    match v
    case Undefined => false
    case Null => false
    case Str(s) => s != ""
    case Num(n) => n != 0
    case Bool(b) => b
  }

  /** `String(v)`. */
  function JsString(v: JsVal): (s: string)
    ensures v.Str? ==> s == v.s
  {
    match v
    case Undefined => "undefined"
    case Null => "null"
    case Str(s) => s
    case Num(n) => IntToString(n)
    case Bool(b) => if b then "true" else "false"
  }

  /** An object's own fields. */
  type Fields = map<string, JsVal>

  function Get(f: Fields, key: string): (v: JsVal)
    ensures key !in f ==> v == Undefined
  {
    if key in f then f[key] else Undefined
  }

  /** One stage of a pipeline update: its `$set` object, if it has a truthy one. */
  datatype Stage = Stage(setOp: Option<Fields>, others: Fields)

  /** What `getUpdate()` returns: nothing, an update object (its `$set`, if
      truthy, and its other top-level fields), or a pipeline. */
  datatype Update = NoUpdate | ObjectUpdate(setOp: Option<Fields>, fields: Fields) | Pipeline(stages: seq<Stage>)

  /** The password an object update writes: `$set.password` unless it is
      undefined or null (`??`), else the top-level `password`. */
  function Candidate(setOp: Option<Fields>, fields: Fields): (c: JsVal)
    ensures var sp := Get(setOp.GetOr(map[]), "password");
            (sp != Undefined && sp != Null ==> c == sp)
            && (sp == Undefined || sp == Null ==> c == Get(fields, "password"))
  {
    var sp := Get(setOp.GetOr(map[]), "password");
    if sp != Undefined && sp != Null then sp else Get(fields, "password")
  }

  /** The hook on an update object, as written: a truthy candidate whose
      string form is not hash-shaped is hashed, and the hash goes to
      `$set.password` whenever that field is present (even as null),
      otherwise to the top-level `password`. */
  function ObjectHook(setOp: Option<Fields>, fields: Fields, hash: string -> string): (r: Update)
    ensures var c := Candidate(setOp, fields);
            (!Truthy(c) || IsBcryptHash(JsString(c))) ==> r == ObjectUpdate(setOp, fields)
    ensures var c := Candidate(setOp, fields);
            var sp := Get(setOp.GetOr(map[]), "password");
            Truthy(c) && !IsBcryptHash(JsString(c)) ==>
              if sp != Undefined then r == ObjectUpdate(Some(setOp.value["password" := Str(hash(JsString(c)))]), fields)
              else r == ObjectUpdate(setOp, fields["password" := Str(hash(JsString(c)))])
  {
    var c := Candidate(setOp, fields);
    if !Truthy(c) then ObjectUpdate(setOp, fields)
    else
      var pwd := JsString(c);
      if IsBcryptHash(pwd) then ObjectUpdate(setOp, fields)
      else
        var hashed := hash(pwd);
        var sp := Get(setOp.GetOr(map[]), "password");
        if sp != Undefined then ObjectUpdate(Some(setOp.value["password" := Str(hashed)]), fields)
        else ObjectUpdate(setOp, fields["password" := Str(hashed)])
  }

  /** The hook with the hash written back where the candidate came from:
      `$set.password` when that is neither undefined nor null, else the
      top-level `password`. */
  function ObjectHookCorrected(setOp: Option<Fields>, fields: Fields, hash: string -> string): (r: Update)
    ensures var c := Candidate(setOp, fields);
            (!Truthy(c) || IsBcryptHash(JsString(c))) ==> r == ObjectUpdate(setOp, fields)
    ensures var c := Candidate(setOp, fields);
            var sp := Get(setOp.GetOr(map[]), "password");
            Truthy(c) && !IsBcryptHash(JsString(c)) ==>
              if sp != Undefined && sp != Null then r == ObjectUpdate(Some(setOp.value["password" := Str(hash(JsString(c)))]), fields)
              else r == ObjectUpdate(setOp, fields["password" := Str(hash(JsString(c)))])
  {
    var c := Candidate(setOp, fields);
    if !Truthy(c) || IsBcryptHash(JsString(c)) then ObjectUpdate(setOp, fields)
    else
      var hashed := hash(JsString(c));
      var sp := Get(setOp.GetOr(map[]), "password");
      if sp != Undefined && sp != Null then ObjectUpdate(Some(setOp.value["password" := Str(hashed)]), fields)
      else ObjectUpdate(setOp, fields["password" := Str(hashed)])
  }

  /** With a real bcrypt, the corrected hook leaves no plain candidate: the
      password the update now writes is falsy or hash-shaped. */
  lemma CorrectedHookLeavesNoPlain(setOp: Option<Fields>, fields: Fields, hash: string -> string)
    requires HashShaped(hash)
    ensures var r := ObjectHookCorrected(setOp, fields, hash);
            r.ObjectUpdate? &&
            var c := Candidate(r.setOp, r.fields);
            !Truthy(c) || IsBcryptHash(JsString(c))
  {
  }

  /** As written, a null `$set.password` next to a plain top-level
      `password` makes the hook hash the top-level value but store the hash
      in `$set.password`, so the plain password stays in the update. */
  lemma NullSetLeavesPlainPassword(hash: string -> string)
    ensures var r := ObjectHook(Some(map["password" := Null]), map["password" := Str("secret")], hash);
            r.ObjectUpdate? && Get(r.fields, "password") == Str("secret")
            && Get(r.setOp.value, "password") == Str(hash("secret"))
  {
  }

  /** The corrected hook hashes the value it picked in place. */
  lemma NullSetCorrected(hash: string -> string)
    requires !IsBcryptHash(hash("secret")) || HashShaped(hash)
    ensures var r := ObjectHookCorrected(Some(map["password" := Null]), map["password" := Str("secret")], hash);
            r.ObjectUpdate? && Get(r.fields, "password") == Str(hash("secret"))
            && Get(r.setOp.value, "password") == Null
  {
    assert !IsBcryptHash("secret");
  }

  /** A pipeline stage whose `$set.password` is a string that is not
      hash-shaped. */
  predicate NeedsHash(st: Stage) {
    st.setOp.Some? && Get(st.setOp.value, "password").Str? && !IsBcryptHash(Get(st.setOp.value, "password").s)
  }

  /** One iteration of the pipeline loop. */
  function HashStage(st: Stage, hash: string -> string): (r: Stage)
    ensures !NeedsHash(st) ==> r == st
    ensures NeedsHash(st) ==>
              r.others == st.others && r.setOp.Some?
              && r.setOp.value == st.setOp.value["password" := Str(hash(Get(st.setOp.value, "password").s))]
  {
    if NeedsHash(st) then st.(setOp := Some(st.setOp.value["password" := Str(hash(Get(st.setOp.value, "password").s))]))
    else st
  }

  /** The whole update hook on a value, as written: an object update goes
      through `ObjectHook`. */
  function UpdateHook(u: Update, hash: string -> string): (r: Update)
    ensures u.NoUpdate? ==> r == u
    ensures u.ObjectUpdate? ==> r == ObjectHook(u.setOp, u.fields, hash)
    ensures u.Pipeline? ==> r.Pipeline? && |r.stages| == |u.stages|
                            && forall i :: 0 <= i < |u.stages| ==> r.stages[i] == HashStage(u.stages[i], hash)
  {
    match u
    case NoUpdate => NoUpdate
    case ObjectUpdate(setOp, fields) => ObjectHook(setOp, fields, hash)
    case Pipeline(stages) => Pipeline(seq(|stages|, i requires 0 <= i < |stages| => HashStage(stages[i], hash)))
  }

  /** With a real bcrypt, no pipeline stage is left with a plain password
      string, and running the hook again changes nothing. */
  lemma PipelineHookHashesAll(stages: seq<Stage>, hash: string -> string)
    requires HashShaped(hash)
    ensures var r := UpdateHook(Pipeline(stages), hash);
            (forall i :: 0 <= i < |r.stages| ==> !NeedsHash(r.stages[i]))
            && UpdateHook(r, hash) == r
  {
    var r := UpdateHook(Pipeline(stages), hash);
    forall i | 0 <= i < |r.stages| ensures !NeedsHash(r.stages[i]) {
      assert r.stages[i] == HashStage(stages[i], hash);
    }
    assert UpdateHook(r, hash).stages == r.stages;
  }

  /** With a real bcrypt, the object hook is idempotent. */
  lemma ObjectHookIdempotent(setOp: Option<Fields>, fields: Fields, hash: string -> string)
    requires HashShaped(hash)
    ensures var r := ObjectHook(setOp, fields, hash);
            r.ObjectUpdate? && ObjectHook(r.setOp, r.fields, hash) == r
  {
    var c := Candidate(setOp, fields);
    if Truthy(c) && !IsBcryptHash(JsString(c)) {
      var r := ObjectHook(setOp, fields, hash);
      var h := hash(JsString(c));
      assert IsBcryptHash(h);
      var sp := Get(setOp.GetOr(map[]), "password");
      if sp == Undefined {
        assert Get(r.setOp.GetOr(map[]), "password") == Undefined;
        assert Candidate(r.setOp, r.fields) == Str(h);
      } else {
        assert Candidate(r.setOp, r.fields) == Str(h);
      }
    }
  }

  /** With a real bcrypt, the corrected object hook is idempotent. */
  lemma ObjectHookCorrectedIdempotent(setOp: Option<Fields>, fields: Fields, hash: string -> string)
    requires HashShaped(hash)
    ensures var r := ObjectHookCorrected(setOp, fields, hash);
            r.ObjectUpdate? && ObjectHookCorrected(r.setOp, r.fields, hash) == r
  {
    CorrectedHookLeavesNoPlain(setOp, fields, hash);
  }

  /** The query whose update the hook rewrites. */
  class UpdateQuery {
    var update: Update

    constructor (u: Update)
      ensures update == u
    {
      update := u;
    }

    /** `hashPasswordInUpdate`, changing the update in place; `modified`
        reports whether a pipeline stage was rewritten. */
    method HashPasswordInUpdate(hash: string -> string) returns (modified: bool)
      modifies this
      ensures update == UpdateHook(old(update), hash)
      ensures modified <==> old(update).Pipeline? && exists i :: 0 <= i < |old(update).stages| && NeedsHash(old(update).stages[i])
    {
      match update
      case NoUpdate =>
        modified := false;
      case ObjectUpdate(setOp, fields) =>
        update := ObjectHook(setOp, fields, hash);
        modified := false;
      case Pipeline(stages) =>
        var pipeline := stages;
        modified := false;
        for i := 0 to |pipeline|
          invariant |pipeline| == |stages|
          invariant forall j :: 0 <= j < i ==> pipeline[j] == HashStage(stages[j], hash)
          invariant forall j :: i <= j < |stages| ==> pipeline[j] == stages[j]
          invariant modified <==> exists j :: 0 <= j < i && NeedsHash(stages[j])
        {
          var st := pipeline[i];
          if st.setOp.Some? && Get(st.setOp.value, "password").Str? {
            var pwd := Get(st.setOp.value, "password").s;
            if !IsBcryptHash(pwd) {
              pipeline := pipeline[i := st.(setOp := Some(st.setOp.value["password" := Str(hash(pwd))]))];
              modified := true;
            }
          }
        }
        update := Pipeline(pipeline);
        assert update.stages == UpdateHook(old(update), hash).stages;
    }
  }

  // ------------------------------------------------------------ toJSON

  /** The fields toJSON removes. */
  const Hidden: set<string> := {"password", "resetPasswordToken", "resetPasswordExpires"}

  /** The toJSON transform: the document's fields minus the hidden ones. */
  function ToJson(ret: Fields): (r: Fields)
    ensures forall k :: k in r <==> k in ret && k !in Hidden
    ensures forall k :: k in r ==> r[k] == ret[k]
  {
    map k | k in ret && k !in Hidden :: ret[k]
  }

  // ------------------------------------------------------------ documents

  /** A stored user. An unset reset field is `None`. */
  datatype User = User(
    id: string, name: string, email: string, password: string,
    resetPasswordToken: Option<string>, resetPasswordExpires: Option<int>)

  /** A user's document as a plain object. */
  function UserFields(u: User): (f: Fields)
    ensures "password" in f && "email" in f && "name" in f && "_id" in f
  {
    var base := map["_id" := Str(u.id), "name" := Str(u.name), "email" := Str(u.email), "password" := Str(u.password)];
    var withToken := if u.resetPasswordToken.Some? then base["resetPasswordToken" := Str(u.resetPasswordToken.value)] else base;
    if u.resetPasswordExpires.Some? then withToken["resetPasswordExpires" := Num(u.resetPasswordExpires.value)] else withToken
  }

  /** What a client receives for a user: id, name and email, and none of the
      password or reset fields. */
  lemma UserJsonScrubbed(u: User)
    ensures var j := ToJson(UserFields(u));
            "password" !in j && "resetPasswordToken" !in j && "resetPasswordExpires" !in j
            && j["_id"] == Str(u.id) && j["name"] == Str(u.name) && j["email"] == Str(u.email)
  {
  }

  /** What the schema guarantees of a stored user's email: present, and
      lowercased and trimmed by its setters. */
  predicate EmailStored(u: User) {
    u.email != "" && LowerTrim(u.email) == u.email
  }

  /** The unique index on `email`. */
  predicate EmailsUnique(users: seq<User>) {
    forall i, j :: 0 <= i < j < |users| ==> users[i].email != users[j].email
  }

  lemma AppendKeepsUnique(users: seq<User>, w: User)
    requires EmailsUnique(users) && w.email !in EmailsOf(users)
    ensures EmailsUnique(users + [w])
  {
    var r := users + [w];
    forall i, j | 0 <= i < j < |r| ensures r[i].email != r[j].email {
      assert r[i] == users[i];
      if j < |users| {
        assert r[j] == users[j];
      } else {
        assert users[i].email in EmailsOf(users);
      }
    }
  }

  /** The first position, in natural order, holding `key`: the lookup
      `findOne({ field: key })` makes once the collection is projected on
      that field. */
  function FirstIndexOf<T(==)>(keys: seq<T>, key: T): (k: Option<nat>)
    ensures k.None? <==> forall i :: 0 <= i < |keys| ==> keys[i] != key
    ensures k.Some? ==> k.value < |keys| && keys[k.value] == key
                        && forall i :: 0 <= i < k.value ==> keys[i] != key
  {
    if keys == [] then None
    else if keys[0] == key then Some(0)
    else
      match FirstIndexOf(keys[1..], key)
      case None => None
      case Some(j) => Some(j + 1)
  }

  /** The first user, in natural order, whose email is the query's. */
  function FindEmail(users: seq<User>, email: string): (k: Option<nat>)
    ensures k.None? <==> forall i :: 0 <= i < |users| ==> users[i].email != email
    ensures k.Some? ==> k.value < |users| && users[k.value].email == email
                        && forall i :: 0 <= i < k.value ==> users[i].email != email
  {
    var emails := seq(|users|, i requires 0 <= i < |users| => users[i].email);
    assert forall i :: 0 <= i < |users| ==> emails[i] == users[i].email;
    FirstIndexOf(emails, email)
  }

  lemma NotFoundNotIn(users: seq<User>, email: string)
    requires FindEmail(users, email).None?
    ensures email !in EmailsOf(users)
  {
  }

  /** A user whose reset token is `token` and whose expiry is after `now`. */
  predicate TokenLive(u: User, token: string, now: int) {
    u.resetPasswordToken == Some(token) && u.resetPasswordExpires.Some? && u.resetPasswordExpires.value > now
  }

  /** `User.findOne({ resetPasswordToken, resetPasswordExpires: { $gt: now } })`. */
  function FindToken(users: seq<User>, token: string, now: int): (k: Option<nat>)
    ensures k.None? <==> forall i :: 0 <= i < |users| ==> !TokenLive(users[i], token, now)
    ensures k.Some? ==> k.value < |users| && TokenLive(users[k.value], token, now)
                        && forall i :: 0 <= i < k.value ==> !TokenLive(users[i], token, now)
  {
    if users == [] then None
    else if TokenLive(users[0], token, now) then Some(0)
    else
      match FindToken(users[1..], token, now)
      case None => None
      case Some(j) => Some(j + 1)
  }

  /** Emails present in the collection. */
  function EmailsOf(users: seq<User>): set<string> {
    set i | 0 <= i < |users| :: users[i].email
  }

  /** A user document loaded into memory. */
  class UserDocument {
    const index: nat
    var user: User

    constructor (index: nat, u: User)
      ensures this.index == index && user == u
    {
      this.index := index;
      user := u;
    }
  }

  /** The `User` collection in natural order. */
  class UserCollection {
    var users: seq<User>

    /** Every stored user passes validation, and the unique index holds. */
    ghost predicate Valid()
      reads this
    {
      (forall i :: 0 <= i < |users| ==> EmailStored(users[i])) && EmailsUnique(users)
    }

    constructor ()
      ensures Valid() && users == []
    {
      users := [];
    }

    /** `User.findOne({ email })`: the schema's lowercase and trim setters
        apply to the query value. */
    method FindOneByEmail(email: string) returns (doc: UserDocument?)
      ensures doc == null <==> FindEmail(users, LowerTrim(email)).None?
      ensures doc != null ==> fresh(doc) && doc.index == FindEmail(users, LowerTrim(email)).value
                              && doc.user == users[doc.index]
    {
      var k := FindEmail(users, LowerTrim(email));
      if k.None? {
        return null;
      }
      doc := new UserDocument(k.value, users[k.value]);
    }

    method FindOneByToken(token: string, now: int) returns (doc: UserDocument?)
      ensures doc == null <==> FindToken(users, token, now).None?
      ensures doc != null ==> fresh(doc) && doc.index == FindToken(users, token, now).value
                              && doc.user == users[doc.index]
    {
      var k := FindToken(users, token, now);
      if k.None? {
        return null;
      }
      doc := new UserDocument(k.value, users[k.value]);
    }

    /** `user.save()` on a loaded document whose email is unchanged:
        validation, then the pre-save hook, then the write. */
    method Save(doc: UserDocument, hash: string -> string) returns (ok: bool)
      requires Valid() && doc.index < |users| && doc.user.email == users[doc.index].email
      modifies this
      ensures Valid()
      ensures ok <==> doc.user.password != ""
      ensures ok ==> users == old(users)[doc.index := doc.user.(password := PreSave(doc.user.password, hash))]
      ensures !ok ==> users == old(users)
    {
      ok := doc.user.password != "";
      if ok {
        var prev := users;
        users := users[doc.index := doc.user.(password := PreSave(doc.user.password, hash))];
        assert forall i :: 0 <= i < |users| ==> users[i].email == prev[i].email;
      }
    }

    /** `User.create(...)`: the setters trim the name and normalise the
        email, validation runs, the hook hashes, and the unique index
        refuses a second user with the same email. */
    method Create(u: User, hash: string -> string) returns (ok: bool)
      requires Valid()
      modifies this
      ensures Valid()
      ensures var v := u.(name := Trim(u.name), email := LowerTrim(u.email));
              (ok <==> v.email != "" && v.password != "" && v.email !in EmailsOf(old(users)))
              && (ok ==> users == old(users) + [v.(password := PreSave(v.password, hash))])
              && (!ok ==> users == old(users))
    {
      var v := u.(name := Trim(u.name), email := LowerTrim(u.email));
      LowerTrimIdempotent(u.email);
      ok := v.email != "" && v.password != "" && v.email !in EmailsOf(users);
      if ok {
        var w := v.(password := PreSave(v.password, hash));
        AppendKeepsUnique(users, w);
        users := users + [w];
      }
    }
  }
}
