/** The field attributes of the profile form that `ProfileModel::getForm`
    edits. The form is kept as a map from (group, field, attribute) to the
    attribute's value; the empty group stands for a field outside any group. */
module ProfileForm {

  datatype AttributeKey = AttributeKey(group: string, field: string, attribute: string)

  /** The form object `loadForm` hands back; only its attributes matter here. */
  class Form {
    var attributes: map<AttributeKey, string>

    /** `Form::setFieldAttribute($field, $attribute, $value, $group)`. */
    method SetFieldAttribute(field: string, attribute: string, value: string, group: string)
      modifies this
      ensures attributes == old(attributes)[AttributeKey(group, field, attribute) := value]
    {
      attributes := attributes[AttributeKey(group, field, attribute) := value];
    }
  }

  const UsernameRequired := AttributeKey("", "username", "required")
  const UsernameReadonly := AttributeKey("", "username", "readonly")
  const UsernameDescription := AttributeKey("", "username", "description")
  const LanguageType := AttributeKey("params", "language", "type")
  const PasswordRequired := AttributeKey("", "password", "required")
  const Password2Required := AttributeKey("", "password2", "required")

  /** The language key of the description shown on a locked username. */
  const NoChangeUsernameDescription := "COM_ADMIN_PROFILE_FIELD_NOCHANGE_USERNAME_DESC"

  /** The attributes the rules set for the given conditions. */
  function RuleKeys(lockUsername: bool, multilanguage: bool, requireReset: bool): set<AttributeKey> {
    (if lockUsername then {UsernameRequired, UsernameReadonly, UsernameDescription} else {})
    + (if multilanguage then {LanguageType} else {})
    + (if requireReset then {PasswordRequired, Password2Required} else {})
  }

  /** The attributes after the three rules of `getForm` have run. */
  function Prepared(before: map<AttributeKey, string>, lockUsername: bool, multilanguage: bool, requireReset: bool)
    : (after: map<AttributeKey, string>)
    // The rules only add or overwrite their own attributes.
    ensures after.Keys == before.Keys + RuleKeys(lockUsername, multilanguage, requireReset)
    // A locked username is not required, read-only and says why.
    ensures lockUsername ==>
      after[UsernameRequired] == "false" && after[UsernameReadonly] == "true"
      && after[UsernameDescription] == NoChangeUsernameDescription
    // With multilanguage on, the language is picked among the site languages.
    ensures multilanguage ==> after[LanguageType] == "frontend_language"
    // A user who must reset the password has to fill in both password fields.
    ensures requireReset ==> after[PasswordRequired] == "true" && after[Password2Required] == "true"
    // Every other attribute keeps its value.
    ensures forall k | k in before && k !in RuleKeys(lockUsername, multilanguage, requireReset) :: after[k] == before[k]
  {
    var a := if lockUsername then
        before[UsernameRequired := "false"][UsernameReadonly := "true"][UsernameDescription := NoChangeUsernameDescription]
      else before;
    var b := if multilanguage then a[LanguageType := "frontend_language"] else a;
    if requireReset then b[PasswordRequired := "true"][Password2Required := "true"] else b
  }

  /** Unless the username is locked, its attributes are left as they were. */
  lemma UsernameUntouchedUnlessLocked(before: map<AttributeKey, string>, multilanguage: bool, requireReset: bool, k: AttributeKey)
    requires k.group == "" && k.field == "username"
    ensures var after := Prepared(before, false, multilanguage, requireReset);
      (k in after <==> k in before) && (k in before ==> after[k] == before[k])
  {
  }
}
