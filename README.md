# Joomla administrator profile model in Dafny

This project models the decision logic of `ProfileModel`, the administrator
component's model behind the "edit my own profile" screen. It has three parts:

- **Username compliance** (`Username`). `getForm` decides whether the current
  username is "compliant". A compliant username has none of
  `< > " ' % ; ( ) & \`, no `../`, at least two characters, and no whitespace
  that `trim` would remove. A falsy username (absent, `""` or `"0"`) counts
  as compliant.
- **Form preparation** (`ProfileForm`, `Profile.ProfileModel.GetForm`).
  `getForm` records the compliance flag in the model state. It then edits the
  form's field attributes under three rules:
  - it locks the username when login-name changes are off and the username
    is compliant;
  - it restricts the language to the site languages under multilanguage;
  - it makes both password fields required when a password reset is due.
- **Saving the profile** (`Otp`, `Profile.ProfileModel.Save`). `save` does
  the following, in order:
  - it strips keys the user may not set;
  - it removes the username when it is locked;
  - it reconciles the two-factor configuration with the replies of the
    two-factor plugins and persists it;
  - it generates emergency one-time passwords when none are left;
  - it binds the remaining data to the user, clears `groups` and stores the
    user.

PHP's own semantics that the code relies on are in `Php`:
- `empty()` and truthiness;
- `trim` with its default character list;
- numeric strings and the loose `!=` between strings, under PHP 8's rules.
  This includes PHP's fallback to a byte comparison for numerals that
  overflow 64-bit integers or doubles.

The form, the user object and the model are classes whose methods update
their fields, as the source's objects do. The framework calls around them are
inputs:
- the plugin replies;
- the outcomes of the user's `bind` and `save`;
- the emergency passwords the generator would produce.

The user record keeps its one-time-password columns apart from its other
properties, both in memory and as persisted. `setOtpConfig` writes the
persisted columns. The reload before binding brings them into memory, so the
final `save` writes back the new configuration and not a stale one.

## Model

| member | source | states |
|---|---|---|
| Php.TrimUnchangedIff | administrator/components/com_admin/src/Model/ProfileModel.php:70 | `trim` leaves a string unchanged exactly when it is empty or neither its first nor its last character is one `trim` strips |
| Php.StripBothSplit | administrator/components/com_admin/src/Model/ProfileModel.php:70 | `trim` only removes a prefix and a suffix of strippable characters: the string is that prefix, the trimmed string and that suffix |
| Php.LooseEquals | administrator/components/com_admin/src/Model/ProfileModel.php:70 | PHP 8's loose `==` between two strings. Two numeric strings compare as numbers, with three exceptions. Two numerals that overflow 64-bit integers to the same side compare byte for byte. A 64-bit integer never equals an overflowing numeral. Two numerals of the same infinity compare byte for byte. Any other pair compares byte for byte |
| Php.CoreOfTrim | administrator/components/com_admin/src/Model/ProfileModel.php:70 | a numeric string and its trim have the same numeric core, so PHP reads both as the same number |
| Php.LooseEqualsTrim | administrator/components/com_admin/src/Model/ProfileModel.php:70 | `trim($s) == $s` under PHP's loose comparison holds exactly when trimming changes nothing, or `$s` is a numeric string that neither overflows 64-bit integers nor is infinite as a double (PHP compares those two cases byte for byte) |
| Username.FalsyIsCompliant | administrator/components/com_admin/src/Model/ProfileModel.php:64-66 | an absent, empty or `"0"` username is compliant, under the written and the intended check |
| Username.IsCompliantAsWritten | administrator/components/com_admin/src/Model/ProfileModel.php:64-71 | the compliance expression as the source runs it, with the loose `!=`. A falsy username is compliant. Otherwise it must have no forbidden character, no `../`, at least two characters, and must loosely equal its trim |
| Username.IsCompliant | administrator/components/com_admin/src/Model/ProfileModel.php:64-73 | the intended compliance check, which `GetForm` records: the same expression with a strict comparison of the username and its trim |
| Username.ForbiddenCharRejected | administrator/components/com_admin/src/Model/ProfileModel.php:69 | a username with any of `< > " ' % ; ( ) & \` at any position is never compliant |
| Username.ParentPathRejected | administrator/components/com_admin/src/Model/ProfileModel.php:69 | a username containing `../` anywhere is never compliant |
| Username.SingleCharacter | administrator/components/com_admin/src/Model/ProfileModel.php:66-69 | a one-character username is compliant exactly when it is `"0"`, which PHP treats as falsy, so the length test never sees it |
| Username.CompliantIff | administrator/components/com_admin/src/Model/ProfileModel.php:64-71 | the intended check, not the one the source runs, in plain terms. A truthy username passes it if and only if no position holds a forbidden character or `../`, it has at least two characters, and it neither starts nor ends with a character `trim` removes |
| Username.AsWrittenDiffersOnlyOnPaddedNumbers | administrator/components/com_admin/src/Model/ProfileModel.php:69-70 | the check as written and the intended one disagree exactly on usernames that pass every other test, have whitespace around them and are numeric strings PHP compares as numbers; the written check is never stricter |
| Username.PaddedNumberPassesAsWritten | administrator/components/com_admin/src/Model/ProfileModel.php:70 | a space followed by the digits of a number below 2^63, such as `" 12"`, passes the written check and fails the intended one |
| Username.LongPaddedNumberRejected | administrator/components/com_admin/src/Model/ProfileModel.php:70 | a space followed by the digits of a number of 2^63 or more, such as `" 99999999999999999999"`, fails the written check as well, because PHP compares two overflowing integers byte for byte |
| ProfileForm.Form.SetFieldAttribute | administrator/components/com_admin/src/Model/ProfileModel.php:77 | setting an attribute stores the value under (group, field, attribute) and changes no other attribute |
| ProfileForm.Prepared | administrator/components/com_admin/src/Model/ProfileModel.php:75-93 | only the attributes of the rules that apply are added or overwritten. A locked username is not required, read-only and carries the no-change description. Multilanguage gives `params.language` type `frontend_language`. A reset makes `password` and `password2` required. Every other attribute keeps its value |
| ProfileForm.UsernameUntouchedUnlessLocked | administrator/components/com_admin/src/Model/ProfileModel.php:75-80 | when the username is not locked, every username attribute is present and valued exactly as before |
| Otp.RequestedMethod | administrator/components/com_admin/src/Model/ProfileModel.php:163 | `$data['twofactor']['method']`: the submitted method, or null when the value is not an array or has no `method` entry |
| Otp.Accepts | administrator/components/com_admin/src/Model/ProfileModel.php:177 | a reply is taken exactly when it is an object whose `method` is non-empty and identical to the requested one |
| Otp.AdoptFirstAccepted | administrator/components/com_admin/src/Model/ProfileModel.php:182-183 | the first accepted reply supplies `method` and `config`, and the passwords stay; with no accepted reply the configuration is unchanged |
| Otp.FirstAccepted | administrator/components/com_admin/src/Model/ProfileModel.php:175-186 | the index found is the first reply that is an object with a non-empty `method` identical to the requested one; there is none exactly when no reply qualifies |
| Otp.ScanReplies | administrator/components/com_admin/src/Model/ProfileModel.php:175-186 | the loop with `continue` and `break` adopts `method` and `config` of the first qualifying reply and otherwise leaves the configuration unchanged |
| Otp.Reconcile | administrator/components/com_admin/src/Model/ProfileModel.php:163-202 | for `none` the result is method `none`, an empty configuration and the prior passwords. For any other method, the first qualifying reply decides method and configuration, or the prior ones stay. Passwords change only for a method other than `none` whose prior passwords were empty, and then they are the generated ones |
| Otp.EmptyRequestMatchesNothing | administrator/components/com_admin/src/Model/ProfileModel.php:177 | an empty requested method matches no reply, so method and configuration stay as they were |
| Otp.LaterRepliesIgnored | administrator/components/com_admin/src/Model/ProfileModel.php:185 | once a reply qualifies, appending further replies does not change which one is chosen |
| Otp.ReconcileIgnoresLaterReplies | administrator/components/com_admin/src/Model/ProfileModel.php:175-195 | once a reply qualifies, appending further replies does not change the stored configuration |
| Otp.PasswordsAfterEnabling | administrator/components/com_admin/src/Model/ProfileModel.php:192-195 | choosing a method other than `none` with no passwords left ends with passwords, whenever the generator produces some |
| Profile.Sanitized | administrator/components/com_admin/src/Model/ProfileModel.php:151-158 | what reaches `bind` is submitted data, unchanged. It never holds `id`, `groups`, `sendEmail`, `block` or `twofactor`. It holds the username exactly when the username is submitted and not locked. It holds every other submitted key |
| Profile.StoredCompliance | administrator/components/com_admin/src/Model/ProfileModel.php:153 | the compliance flag `save` reads back from the state: unset or empty means not compliant |
| Profile.UsernameLocked | administrator/components/com_admin/src/Model/ProfileModel.php:75 | the username is locked exactly when login-name changes are off and the username is compliant; `getForm` and `save` apply the same rule at lines 75 and 155 |
| Profile.BoundRecord | administrator/components/com_admin/src/Model/ProfileModel.php:212-219 | after a successful bind, the user holds the base keys, the sanitised keys and `groups`. `groups` is null, a sanitised key has its submitted value, and every other key keeps its base value. A locked username keeps its base value |
| Profile.Persisted | administrator/components/com_admin/src/Model/ProfileModel.php:222 | the row a successful store leaves has exactly the columns of the old row and of the object |
| Profile.PersistedColumns | administrator/components/com_admin/src/Model/ProfileModel.php:222 | column by column: a non-null property is written, and a column whose property is null or absent keeps its stored value |
| Profile.SavedRow | administrator/components/com_admin/src/Model/ProfileModel.php:219-222 | the row a successful profile save leaves keeps the stored group membership, because `groups` is cleared before the store, and holds every non-null value that reached `bind` |
| Profile.User.Load | administrator/components/com_admin/src/Model/ProfileModel.php:208 | reloading makes the in-memory properties and one-time-password columns those of the persisted row |
| Profile.User.Bind | administrator/components/com_admin/src/Model/ProfileModel.php:212 | a passing bind overlays the data on the properties; a failing one changes only the error |
| Profile.User.Save | administrator/components/com_admin/src/Model/ProfileModel.php:222 | a passing save writes the object's non-null properties and its one-time-password columns, and keeps the stored value of every null property; a failing one changes only the error |
| Profile.ProfileModel.SetOtpConfig | administrator/components/com_admin/src/Model/ProfileModel.php:189 | the configuration becomes the persisted one-time-password columns of the user's row, and nothing else changes |
| Profile.ProfileModel.GenerateOteps | administrator/components/com_admin/src/Model/ProfileModel.php:194 | the persisted configuration gets the generated passwords and keeps its method and configuration |
| Profile.ProfileModel.ApplyTwoFactor | administrator/components/com_admin/src/Model/ProfileModel.php:161-202 | the persisted configuration becomes the reconciled one, computed from the configuration read from the row; nothing else changes |
| Profile.ProfileModel.GetForm | administrator/components/com_admin/src/Model/ProfileModel.php:53-96 | without a form nothing changes. With one, the state records the compliance of the username, and the attributes are the prepared ones, with the username locked exactly when login-name changes are off and the username is compliant |
| Profile.ProfileModel.StripAndApplyTwoFactor | administrator/components/com_admin/src/Model/ProfileModel.php:151-209 | the data returned for `bind` is the sanitised data. With two-factor data, the persisted configuration becomes the reconciled one and the user is reloaded from its row. Without it, the user is left alone |
| Profile.ProfileModel.BindAndStore | administrator/components/com_admin/src/Model/ProfileModel.php:211-231 | the result is true exactly when bind and save both pass. A failure leaves the state and the stored row as they were and sets the model's error to the user's. Success clears `groups`, stores the user (non-null properties and its in-memory one-time-password columns), records its id in the state and leaves both errors as they were |
| Profile.ProfileModel.Save | administrator/components/com_admin/src/Model/ProfileModel.php:146-232 | the result is true exactly when bind and save pass. When two-factor data is submitted, the reconciled configuration is what stays persisted, whether bind or save fail or the save writes the reloaded user back. The bound record is the sanitised data with `groups` cleared, over the reloaded row or, when no two-factor data came, over the in-memory properties. A successful save stores that record, so by `SavedRow` the group membership stays. Success records the user id and leaves both errors as they were. Failure leaves the state as it was and copies the user's error |
| Profile.LockedUsernameNeverBound | administrator/components/com_admin/src/Model/ProfileModel.php:73-158 | once the compliance flag is recorded, the next save binds a submitted username exactly when the form left the field editable |

## Left out

- `populateState`, `loadFormData`, `getItem` and `loadForm`: these are session and form plumbing. `GetForm` takes the loaded form (null when none could be loaded) and the loaded username as inputs.
- Plugin import and event dispatch: the replies to the two-factor event are an input sequence.
- The internals of `getOtpConfig`, `setOtpConfig` and `generateOteps`. They read and write the one-time-password columns of the current user's row, since `$pk` is that user's id. Rows of other users are not modelled. The random emergency passwords are an input. Anything `setOtpConfig` does to the configuration beyond storing it, such as encoding it, is not modelled.
- The internals of the user's `load`, `bind` and `save`: `load` copies the persisted row into memory, `save` writes the non-null properties to the existing row, `bind` overlays the data and never touches the one-time-password columns (the profile form has no field for them), and their success or failure and error message are inputs.
- The configuration read, `Multilanguage::isEnabled()` and the user's `requireReset`: these are boolean inputs.
- Otp.Reconcile: for method `none` it keeps the prior passwords, because that is what the source passes to `setOtpConfig`. Whatever `setOtpConfig` does to clear the passwords of a user without two-factor authentication is not modelled, so the persisted configuration keeps them too.
- Profile.User.Save: group membership is treated as the `groups` column of the row, not as the separate user-group map. Storing a new user row is not modelled.
- Profile.ProfileModel.Save: the user always exists. `load($pk)` failing is not modelled.
- Profile.ProfileModel.GetForm: returns null where the source returns `false`.
- Profile.ProfileModel.GetForm: records and locks on the intended compliance check (`Username.IsCompliant`), not the loose `!=` the source runs. A username such as `" 12"`, with login-name changes off, is recorded as compliant and locked by the source, but recorded as not compliant and left editable here. The check as written is `Username.IsCompliantAsWritten` (see "## Findings").
- ProfileForm.Form.SetFieldAttribute: always records the attribute. The form's "no such field, nothing changes" case is not modelled.
- Username.IsCompliant: `strlen(utf8_decode(...))` is the number of code points. Invalid UTF-8 and the `?` substitution of `utf8_decode` are not modelled.
- Php.LooseEquals: follows PHP 8. It models the byte comparison PHP falls back to when both numerals overflow 64-bit integers to the same side, or both are the same infinity, and PHP's "not equal" for a 64-bit integer against an overflowing numeral. Other numeric pairs compare as exact rationals, not IEEE doubles, so two numerals that differ only beyond double precision compare unequal here but equal in PHP.
- Php.IsNumericString: follows PHP 8, which allows trailing whitespace. Under PHP 7, `"12 "` is not numeric, so the written check rejects it there while this model lets it pass. Leading whitespace, as in `" 12"`, is numeric under both.
- Otp.RequestedMethod: reads a submitted `twofactor` value that is not an array as a null method. The array key order of `config` values is not modelled; arrays are maps.

## Findings

| source | as written | input that shows it | evidently intended | confidence | as-written member | corrected member |
|---|---|---|---|---|---|---|
| administrator/components/com_admin/src/Model/ProfileModel.php:70 | `trim($username) != $username` is PHP's loose comparison, which compares two numeric strings as numbers | username `" 12"`: its trim `"12"` equals it as a number, so the whitespace test passes and the username counts as compliant | a username with surrounding whitespace is never compliant (a strict `!==`) | medium, not executed | Username.PaddedNumberPassesAsWritten | Username.CompliantIff |

The rest of the model, `GetForm` included, uses the corrected check
`Username.IsCompliant`. The check as written is `Username.IsCompliantAsWritten`.
