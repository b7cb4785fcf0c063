/** `ProfileModel`: prepares the profile form of the signed-in user and
    saves the submitted profile, including the two-factor set-up.
    The framework around it is reduced to what the two methods touch:
    the model's state, the persisted one-time-password configurations,
    the user object and the outcomes of the user's `bind` and `save`. */
module Profile {
  import opened Wrappers
  import opened Php
  import opened Username
  import opened Otp
  import opened ProfileForm

  /** How a foreign call on the user record ended. */
  datatype Outcome = Pass | Fail(message: string)

  const CompliantKey := "user.username.compliant"
  const UserIdKey := "user.id"
  const TwofactorKey := "twofactor"
  const UsernameKey := "username"

  /** Submitted keys a user may never set on their own profile. */
  const ProtectedKeys: set<string> := {"id", "groups", "sendEmail", "block"}

  /** The username is locked when the site forbids login-name changes and
      the current username is compliant. */
  predicate UsernameLocked(changeLoginName: bool, compliant: bool) {
    !changeLoginName && compliant
  }

  /** `$this->getState('user.username.compliant')` read as a PHP condition:
      an unset state is null and so false. */
  predicate StoredCompliance(state: map<string, Value>) {
    CompliantKey in state && !IsEmpty(state[CompliantKey])
  }

  /** The submitted data that reaches `bind`. */
  function Sanitized(data: map<string, Value>, changeLoginName: bool, compliant: bool): (r: map<string, Value>)
    // What is bound was submitted, unchanged.
    ensures forall k | k in r :: k in data && r[k] == data[k]
    // Protected keys and the raw two-factor data never reach the record.
    ensures forall k | k in ProtectedKeys :: k !in r
    ensures TwofactorKey !in r
    // The username reaches it exactly when it is not locked.
    ensures UsernameKey in r <==> UsernameKey in data && !UsernameLocked(changeLoginName, compliant)
    // Everything else reaches it.
    ensures forall k | k in data && k !in ProtectedKeys && k != TwofactorKey && k != UsernameKey :: k in r
  {
    var stripped := data - ProtectedKeys;
    var stripped := if UsernameLocked(changeLoginName, compliant) then stripped - {UsernameKey} else stripped;
    stripped - {TwofactorKey}
  }

  /** The row a successful store leaves. The users table writes every
      property that is not null and leaves a column alone where the
      property is null or absent, so a null `groups` keeps the membership. */
  function Persisted(before: map<string, Value>, props: map<string, Value>): (r: map<string, Value>)
    ensures r.Keys == before.Keys + props.Keys
  {
    map k | k in before.Keys + props.Keys :: if k in props && props[k] != Null then props[k] else if k in before then before[k] else Null
  }

  /** Column by column: a non-null property is written, a column whose
      property is null or absent keeps its stored value, and a new column
      with a null property is null. */
  lemma PersistedColumns(before: map<string, Value>, props: map<string, Value>, k: string)
    requires k in before.Keys + props.Keys
    ensures var r := Persisted(before, props);
      (k in props && props[k] != Null ==> r[k] == props[k])
      && (k in before && (k !in props || props[k] == Null) ==> r[k] == before[k])
      && (k in props && k !in before && props[k] == Null ==> r[k] == Null)
  {
  }

  /** The user object of `Factory::getUser()`. The one-time-password
      columns of the user's row are kept apart from the other properties,
      in memory and as persisted. */
  class User {
    var id: int
    /** The object's properties in memory. */
    var props: map<string, Value>
    /** The one-time-password columns in memory. */
    var otp: OtpConfig
    /** The user's row as persisted, without the one-time-password columns. */
    var stored: map<string, Value>
    /** The one-time-password columns of the persisted row. */
    var storedOtp: OtpConfig
    var error: string

    constructor (id: int, props: map<string, Value>, otp: OtpConfig, stored: map<string, Value>, storedOtp: OtpConfig)
      ensures this.id == id && this.props == props && this.otp == otp
      ensures this.stored == stored && this.storedOtp == storedOtp && error == ""
    {
      this.id := id;
      this.props := props;
      this.otp := otp;
      this.stored := stored;
      this.storedOtp := storedOtp;
      error := "";
    }

    /** `$user->load($user->id)`: the object is read back from storage. */
    method Load()
      modifies this`props, this`otp
      ensures props == stored && otp == storedOtp
    {
      props := stored;
      otp := storedOtp;
    }

    /** `$user->bind($data)`: on success the submitted keys overwrite the
        properties; on failure nothing changes but the error. */
    method Bind(data: map<string, Value>, outcome: Outcome) returns (ok: bool)
      modifies this`props, this`error
      ensures ok == outcome.Pass?
      ensures ok ==> props == old(props) + data && error == old(error)
      ensures !ok ==> props == old(props) && error == outcome.message
    {
      ok := outcome.Pass?;
      if ok {
        props := props + data;
      } else {
        error := outcome.message;
      }
    }

    /** `$user->save()`: on success the object's non-null properties and
        its one-time-password columns are written to the stored row. */
    method Save(outcome: Outcome) returns (ok: bool)
      modifies this`stored, this`storedOtp, this`error
      ensures ok == outcome.Pass?
      ensures ok ==> stored == Persisted(old(stored), props) && storedOtp == otp && error == old(error)
      ensures !ok ==> stored == old(stored) && storedOtp == old(storedOtp) && error == outcome.message
    {
      ok := outcome.Pass?;
      if ok {
        stored := Persisted(stored, props);
        storedOtp := otp;
      } else {
        error := outcome.message;
      }
    }
  }

  /** The properties the save leaves on the user object once `bind` has
      succeeded: the base (reloaded from storage when two-factor data was
      submitted) overlaid with the sanitised data, with `groups` cleared. */
  function BoundRecord(base: map<string, Value>, data: map<string, Value>, changeLoginName: bool, compliant: bool)
    : (r: map<string, Value>)
    ensures r.Keys == base.Keys + Sanitized(data, changeLoginName, compliant).Keys + {"groups"}
    ensures r["groups"] == Null
    ensures forall k | k in r && k != "groups" ::
      r[k] == (if k in Sanitized(data, changeLoginName, compliant) then data[k] else base[k])
    ensures !UsernameLocked(changeLoginName, compliant) && UsernameKey in data ==> r[UsernameKey] == data[UsernameKey]
    ensures UsernameLocked(changeLoginName, compliant) && UsernameKey in base ==> r[UsernameKey] == base[UsernameKey]
  {
    (base + Sanitized(data, changeLoginName, compliant))["groups" := Null]
  }

  /** The row a successful profile save leaves, `Persisted(before, bound)`
      with `bound` the record `bind` produced over `base`, keeps the stored
      group membership, since `groups` is cleared before the store and a
      null is not written, and holds every non-null value that reached
      `bind`. */
  lemma SavedRow(before: map<string, Value>, base: map<string, Value>, data: map<string, Value>,
                 changeLoginName: bool, compliant: bool)
    ensures var r := Persisted(before, BoundRecord(base, data, changeLoginName, compliant));
      ("groups" in before ==> "groups" in r && r["groups"] == before["groups"])
      && forall k | k in Sanitized(data, changeLoginName, compliant) && data[k] != Null :: k in r && r[k] == data[k]
  {
    var bound := BoundRecord(base, data, changeLoginName, compliant);
    if "groups" in before {
      PersistedColumns(before, bound, "groups");
    }
    forall k | k in Sanitized(data, changeLoginName, compliant) && data[k] != Null
      ensures k in Persisted(before, bound) && Persisted(before, bound)[k] == data[k]
    {
      PersistedColumns(before, bound, k);
    }
  }

  class ProfileModel {
    /** The model state (`getState` / `setState`). */
    var state: map<string, Value>
    /** The error the model reports (`setError`). */
    var error: string

    constructor (state: map<string, Value>)
      ensures this.state == state && error == ""
    {
      this.state := state;
      error := "";
    }

    /** `setOtpConfig($pk, $otpConfig)` for the user whose id is `$pk`: it
        writes the one-time-password columns of that user's row. */
    method SetOtpConfig(user: User, config: OtpConfig)
      modifies user`storedOtp
      ensures user.storedOtp == config
    {
      user.storedOtp := config;
    }

    /** `generateOteps($pk)`: stores the passwords the generator produced
        in the user's row. */
    method GenerateOteps(user: User, generated: seq<string>)
      modifies user`storedOtp
      ensures user.storedOtp == old(user.storedOtp).(otep := generated)
    {
      user.storedOtp := user.storedOtp.(otep := generated);
    }

    /** The two-factor part of `save` for the requested method: the
        configuration `getOtpConfig` reads from the user's row is replaced
        by the reconciled one. */
    method ApplyTwoFactor(user: User, requested: Value, replies: seq<Reply>, generated: seq<string>)
      modifies user`storedOtp
      ensures user.storedOtp == Reconcile(old(user.storedOtp), requested, replies, generated)
    {
      var otpConfig := user.storedOtp;
      if requested != NoneMethod {
        otpConfig := ScanReplies(otpConfig, replies, requested);
        SetOtpConfig(user, otpConfig);
        if otpConfig.otep == [] {
          GenerateOteps(user, generated);
        }
      } else {
        otpConfig := otpConfig.(methodName := NoneMethod, config := Arr(map[]));
        SetOtpConfig(user, otpConfig);
      }
    }

    /** `getForm`: `form` is what `loadForm` returned (null when no form
        could be loaded), `username` the username of the loaded form data. */
    method GetForm(form: Form?, username: Option<string>, changeLoginName: bool, multilanguage: bool, requireReset: bool)
      returns (r: Form?)
      modifies this`state, form
      ensures r == form
      ensures form == null ==> state == old(state)
      ensures form != null ==> state == old(state)[CompliantKey := Bool(IsCompliant(username))]
      ensures form != null ==>
        form.attributes == Prepared(old(form.attributes), UsernameLocked(changeLoginName, IsCompliant(username)),
                                    multilanguage, requireReset)
    {
      if form == null {
        return null;
      }

      var compliant := IsCompliant(username);
      state := state[CompliantKey := Bool(compliant)];

      if !changeLoginName && compliant {
        form.SetFieldAttribute("username", "required", "false", "");
        form.SetFieldAttribute("username", "readonly", "true", "");
        form.SetFieldAttribute("username", "description", NoChangeUsernameDescription, "");
      }
      if multilanguage {
        form.SetFieldAttribute("language", "type", "frontend_language", "params");
      }
      if requireReset {
        form.SetFieldAttribute("password", "required", "true", "");
        form.SetFieldAttribute("password2", "required", "true", "");
      }
      r := form;
    }

    /** The tail of `save`: bind the sanitised data, clear `groups`, store
        the user and record its id; a failing `bind` or `save` sets the
        model's error to the user's. */
    method BindAndStore(user: User, submitted: map<string, Value>, bindOutcome: Outcome, saveOutcome: Outcome)
      returns (ok: bool)
      modifies this`state, this`error, user`props, user`stored, user`storedOtp, user`error
      ensures ok == (bindOutcome.Pass? && saveOutcome.Pass?)
      ensures user.props == if bindOutcome.Pass? then (old(user.props) + submitted)["groups" := Null] else old(user.props)
      ensures ok ==> user.stored == Persisted(old(user.stored), user.props) && user.storedOtp == user.otp
      ensures !ok ==> user.stored == old(user.stored) && user.storedOtp == old(user.storedOtp)
      ensures ok ==> state == old(state)[UserIdKey := Int(user.id)] && error == old(error) && user.error == old(user.error)
      ensures !ok ==> state == old(state)
      ensures !ok ==> error == user.error == (if bindOutcome.Fail? then bindOutcome.message else saveOutcome.message)
    {
      var bound := user.Bind(submitted, bindOutcome);
      if !bound {
        error := user.error;
        return false;
      }

      user.props := user.props["groups" := Null];

      var saved := user.Save(saveOutcome);
      if !saved {
        error := user.error;
        return false;
      }

      state := state[UserIdKey := Int(user.id)];
      ok := true;
    }

    /** The part of `save` before `bind`: strips the keys the user may not
        set, applies submitted two-factor data and reloads the user, then
        returns the data for `bind`. */
    method StripAndApplyTwoFactor(user: User, data: map<string, Value>, changeLoginName: bool,
                                  replies: seq<Reply>, generated: seq<string>)
      returns (submitted: map<string, Value>)
      modifies user`props, user`otp, user`storedOtp
      ensures submitted == Sanitized(data, changeLoginName, StoredCompliance(state))
      ensures TwofactorKey in data ==>
        user.storedOtp == Reconcile(old(user.storedOtp), RequestedMethod(data[TwofactorKey]), replies, generated)
        && user.otp == user.storedOtp && user.props == user.stored
      ensures TwofactorKey !in data ==>
        user.storedOtp == old(user.storedOtp) && user.otp == old(user.otp) && user.props == old(user.props)
    {
      submitted := data - ProtectedKeys;

      var isUsernameCompliant := StoredCompliance(state);
      if !changeLoginName && isUsernameCompliant {
        submitted := submitted - {UsernameKey};
      }
      assert TwofactorKey in submitted <==> TwofactorKey in data;

      if TwofactorKey in submitted {
        ApplyTwoFactor(user, RequestedMethod(submitted[TwofactorKey]), replies, generated);
        submitted := submitted - {TwofactorKey};
        user.Load();
      } else {
        assert submitted == submitted - {TwofactorKey};
      }
    }

    /** `save($data)`. `replies` are the plugin replies to the two-factor
        event, `generated` the passwords `generateOteps` would create, and
        the outcomes those of the user's `bind` and `save`. */
    method Save(user: User, data: map<string, Value>, changeLoginName: bool, replies: seq<Reply>,
                generated: seq<string>, bindOutcome: Outcome, saveOutcome: Outcome)
      returns (ok: bool)
      modifies this`state, this`error, user`props, user`otp, user`stored, user`storedOtp, user`error
      ensures ok == (bindOutcome.Pass? && saveOutcome.Pass?)
      // The reconciled two-factor configuration is what stays persisted,
      // whether the save then fails or writes the reloaded user back.
      ensures TwofactorKey in data ==>
        user.storedOtp == Reconcile(old(user.storedOtp), RequestedMethod(data[TwofactorKey]), replies, generated)
      ensures TwofactorKey !in data ==> user.storedOtp == if ok then old(user.otp) else old(user.storedOtp)
      ensures user.otp == if TwofactorKey in data then user.storedOtp else old(user.otp)
      ensures bindOutcome.Fail? ==>
        user.props == (if TwofactorKey in data then old(user.stored) else old(user.props))
      ensures bindOutcome.Pass? ==>
        user.props == BoundRecord(if TwofactorKey in data then old(user.stored) else old(user.props),
                                  data, changeLoginName, StoredCompliance(old(state)))
      // With the bound record above: see `SavedRow`.
      ensures user.stored == if ok then Persisted(old(user.stored), user.props) else old(user.stored)
      ensures ok ==> state == old(state)[UserIdKey := Int(user.id)] && error == old(error) && user.error == old(user.error)
      ensures !ok ==> state == old(state)
      ensures !ok ==> error == user.error == (if bindOutcome.Fail? then bindOutcome.message else saveOutcome.message)
    {
      var submitted := StripAndApplyTwoFactor(user, data, changeLoginName, replies, generated);
      ok := BindAndStore(user, submitted, bindOutcome, saveOutcome);
    }
  }

  /** What the form locks, the save strips: once `GetForm` has recorded the
      compliance of a username, the next save binds the submitted username
      exactly when the form left the field editable. */
  lemma LockedUsernameNeverBound(state: map<string, Value>, username: Option<string>, changeLoginName: bool,
                                 data: map<string, Value>)
    ensures var recorded := state[CompliantKey := Bool(IsCompliant(username))];
      UsernameKey in Sanitized(data, changeLoginName, StoredCompliance(recorded))
      <==> UsernameKey in data && !UsernameLocked(changeLoginName, IsCompliant(username))
  {
  }
}
