# curry-hub form engine, auth and role rules in Dafny

This project models the logic at the centre of the curry-hub dashboard client:

- The declarative form engine: `getValidationSchema` turns a list of field
  descriptors into one record of rules, one per field name (a field named "__proto__" gets none, since assigning that name to a plain object sets its prototype). Each rule is the
  field's explicit schema, or a kind rule (email, url, the five-part password
  rule, the phone pattern, number and length bounds, date, boolean, optional
  file, plain string), wrapped as optional unless the field is required or a
  checkbox. `DynamicFieldGenerator` picks the control for each field kind,
  fixes the value it shows (`value || ''`, `|| []`, `|| false`) and the
  value each control commits. The multi-select append and remove are the
  interesting part.
- The auth slice: four fields and six reducers, with the invariant
  "authenticated exactly when a user is stored". `useAuth` adds the
  mock-credential sign-in and the restore-on-mount effect, and `SignIn`
  adds its empty-field pre-check.
- Role-based visibility: the sidebar's role filter and active-link test, and
  `RoleGuard`'s allow / fallback / deny decision.
- The Users page's case-insensitive search. The Components page's
  single-select toggle, multi-select check boxes and badges, autocomplete
  filter, label lookup and file pick.

Layout:

- One module per source file: `Validations`, `DynamicFieldGenerator`,
  `AuthSlice`, `UseAuth`, `Sidebar`, `RoleGuard`, `UsersPage`,
  `ComponentsPage`.
- Shared support modules: `Wrappers` (Option/Result), `Seqs` (filter,
  remove-all, order-preserving sub-list), `Strings` (ASCII case folding,
  substring search, decimal formatting) and `Types` (roles and the `User`
  record).

How the source's constructs are represented:

- Pure code stays pure: validation rules, control resolution, commits and
  filters are functions with lemmas.
- State the source updates in place is held in classes whose methods are
  specified against the pure functions:
  - `AuthSlice.AuthStore` for the Redux slice;
  - `ComponentsPage.ShowcaseState` for the page's `useState` variables.
- `getValidationSchema`'s `forEach` loop is a loop method, proved to build
  the record that `Validations.SchemaOf` describes.
- A field's `type` is kept as the runtime string. `Validations.KindOf`
  parses it into the thirteen kinds. A string outside them reaches the same
  default arms as in the source.
- The grammars that belong to the Zod library are parameters of every
  rule-checking member, collected in `Validations.Grammars`: e-mail
  addresses, URLs, date coercion and explicit schemas. The model does not
  fix them.
- `Validations.Accepts` states when a rule passes. `Validations.Issues`
  lists the source's own error messages. A lemma proves that a value passes
  exactly when it has no issue.

Three consequences of the code are worth stating:

- A text control shows `value || ''` (DynamicFieldGenerator.tsx:41), so
  `0` and `NaN` are shown as empty too, not only an absent value
  (`DynamicFieldGenerator.EmptyValuesShowEmpty`).
- Committing the value a control shows can change the field's validation
  result:
  - an optional text field with `minLength` 1 accepts `undefined`;
  - it shows that value as `''`;
  - it rejects the committed `''`.
  `DynamicFieldGenerator.ShownDefaultCommitCanFail` proves this.
- Zod's `min` and `max` on strings count JavaScript `length`, that is
  UTF-16 code units: a character outside the Basic Multilingual Plane
  counts twice (`Strings.JsLength`). A seven-character password with two
  emoji is long enough, and three emoji exceed a limit of five
  (`Validations.SurrogatePairsCountTwice`).

## Model

| member | source | states |
|---|---|---|
| Validations.KindOf | curry-hub/client/lib/validations.ts:45-58 | a recognised type string is the name of the kind it is parsed to |
| Validations.KindOfTypeName | curry-hub/client/lib/validations.ts:45-58 | each of the thirteen kind names parses back to its kind |
| Validations.GetValidationSchema | curry-hub/client/lib/validations.ts:131-185 | the loop builds the record `SchemaOf` describes, and its keys are exactly the field names other than "__proto__", whose assignment sets the object's prototype instead of adding a key |
| Validations.SchemaKeys | curry-hub/client/lib/validations.ts:132-181 | the record has one key per distinct field name other than "__proto__", and no other key |
| Validations.SchemaLastWins | curry-hub/client/lib/validations.ts:181 | the rule stored under a name is that of the last field with that name; a field named "__proto__" stores no rule |
| Validations.AcceptsIffNoIssues | curry-hub/client/lib/validations.ts:4-42 | a value passes a rule exactly when checking it reports no issue |
| Validations.Validate | curry-hub/client/lib/validations.ts:184 | validating a form gives one issue list for every key of the record |
| Validations.ValidateReportsFailingFields | curry-hub/client/lib/validations.ts:184 | a field reports issues exactly when its value fails its rule, and the form passes exactly when no field reports one |
| Validations.ExplicitValidationWins | curry-hub/client/lib/validations.ts:137-138 | with an explicit schema, acceptance depends on that schema alone, except that an optional field still accepts an absent value |
| Validations.ExplicitIgnoresKind | curry-hub/client/lib/validations.ts:137-138 | with an explicit schema, changing the kind does not change the rule, as long as checkbox-ness is kept |
| Validations.PasswordPolicy | curry-hub/client/lib/validations.ts:22-28 | a password passes exactly when it has at least 8 UTF-16 code units, an upper-case letter, a lower-case letter, a digit and a non-alphanumeric character; each failed part reports its own message |
| Validations.PasswordExamples | curry-hub/client/lib/validations.ts:22-28 | "Abcdef1!" passes; "abcdefg1" fails with exactly the upper-case and special-character messages, in that order |
| Validations.MissingUpperAndSpecial | curry-hub/client/lib/validations.ts:22-28 | a long enough password with lower-case letters and digits but no upper-case letter and no special character gets exactly the upper-case and special-character messages, in the order of the rules |
| Validations.SurrogatePairsCountTwice | curry-hub/client/lib/validations.ts:10-13 | lengths count UTF-16 code units: "Abc1!" followed by two emoji (7 characters, 9 units) is a strong password, and three emoji (6 units) fail a text field with `maxLength` 5 |
| Validations.PhoneDigits | curry-hub/client/lib/validations.ts:31 | a digit string passes exactly when it has 2 to 15 digits and does not start with 0; a leading '+' changes nothing |
| Validations.PhoneCharacters | curry-hub/client/lib/validations.ts:31 | an accepted phone number holds only digits, apart from an optional leading '+' |
| Validations.PhoneExamples | curry-hub/client/lib/validations.ts:31 | "+14155552671" and "12" pass; "+0123", "+1", a 16-digit number and "+1-415" fail |
| Validations.NumberBounds | curry-hub/client/lib/validations.ts:147-156 | a number passes exactly when it satisfies the bounds that are given (both inclusive), and a non-number entry never passes |
| Validations.NumberMessages | curry-hub/client/lib/validations.ts:16-19 | an out-of-range number reports "Minimum n"/"Maximum n" when both bounds are set, and "Minimum value is n"/"Maximum value is n" when only one is |
| Validations.TextLengthBounds | curry-hub/client/lib/validations.ts:157-166 | a text or textarea string passes exactly when its length in UTF-16 code units satisfies the given length bounds; a number never passes |
| Validations.TextLengthMessages | curry-hub/client/lib/validations.ts:10-13 | a string of the wrong length (in UTF-16 code units) reports "Minimum n characters" or "Maximum n characters" when both bounds are set, and "Minimum n characters required" or "Maximum n characters allowed" when only one is |
| Validations.InvertedBoundsRejectEveryNumber | curry-hub/client/lib/validations.ts:148-149 | with min > max, no number passes; only an absent value does, and only on an optional field |
| Validations.OptionalAcceptsAbsent | curry-hub/client/lib/validations.ts:177-179 | a field that is neither required nor a checkbox accepts an absent value |
| Validations.CheckboxRequiresBoolean | curry-hub/client/lib/validations.ts:169-170 | a checkbox accepts exactly booleans, even when it is not required |
| Validations.FileAcceptsAbsent | curry-hub/client/lib/validations.ts:171-172 | a file field accepts exactly an absent value or a file, even when it is required |
| Validations.RequiredRejectsAbsent | curry-hub/client/lib/validations.ts:139-175 | a required field rejects an absent value, except that a date field accepts whatever date coercion accepts |
| Validations.ChoiceKindsTakeStrings | curry-hub/client/lib/validations.ts:173-174 | required select, multiselect, radio and unknown-kind fields accept exactly strings |
| Validations.BoundsExamples | curry-hub/client/lib/validations.ts:147-166 | a number rule 1..10 takes 1 and 10 but not 0 or 11; a length rule 2..5 takes "ab" but not "a" or "abcdef" |
| DynamicFieldGenerator.UnknownKindFallsBackToText | curry-hub/client/components/DynamicFieldGenerator.tsx:227-235 | an unrecognised type string gets a plain text input that has no length limits |
| DynamicFieldGenerator.PhonePlaceholderOverrides | curry-hub/client/components/DynamicFieldGenerator.tsx:81-90 | a phone control is a "tel" input whose placeholder is always "+1234567890", whatever the descriptor says |
| DynamicFieldGenerator.TextareaRows | curry-hub/client/components/DynamicFieldGenerator.tsx:118 | a textarea gets 4 rows when `rows` is unset or 0, and its own rows otherwise |
| DynamicFieldGenerator.EmptyValuesShowEmpty | curry-hub/client/components/DynamicFieldGenerator.tsx:41 | a text-like control shows '' for an absent value, '', 0 and NaN, and shows any truthy value unchanged |
| DynamicFieldGenerator.CheckboxShowsFalseByDefault | curry-hub/client/components/DynamicFieldGenerator.tsx:183-184 | a checkbox shows false for an absent value and its boolean otherwise |
| DynamicFieldGenerator.CommitsAreVerbatim | curry-hub/client/components/DynamicFieldGenerator.tsx:133 | text-like inputs commit the typed string, select and radio commit the chosen value, and a checkbox commits the toggle's boolean, all unchanged |
| DynamicFieldGenerator.FileCommitKeepsFirst | curry-hub/client/components/DynamicFieldGenerator.tsx:221-223 | a file control commits only the first chosen file, or an absent value when none is chosen, even with `multiple` set |
| DynamicFieldGenerator.CheckAppends | curry-hub/client/components/DynamicFieldGenerator.tsx:160-161 | checking an option adds it at the end without de-duplication: the list grows by one, the old list is its prefix, the option's count rises by one, and the box shows as checked |
| DynamicFieldGenerator.UncheckRemovesAll | curry-hub/client/components/DynamicFieldGenerator.tsx:162 | unchecking removes every occurrence, keeps the other values in order and with their counts, shows the box unchecked, and unchecking twice equals unchecking once; unchecking an option that is not checked leaves the list unchanged |
| DynamicFieldGenerator.MultiselectCommitRejected | curry-hub/client/components/DynamicFieldGenerator.tsx:159-164 | a multiselect commits a list, but its rule is the plain-string arm, so no committed multiselect value ever passes |
| DynamicFieldGenerator.CheckboxCommitAccepted | curry-hub/client/components/DynamicFieldGenerator.tsx:184 | whatever a checkbox commits passes the checkbox rule |
| DynamicFieldGenerator.NotANumberCommitRejected | curry-hub/client/components/DynamicFieldGenerator.tsx:74 | a number entry that does not parse commits NaN, which the number rule rejects even on an optional field |
| DynamicFieldGenerator.ShownDefaultCommitCanFail | curry-hub/client/components/DynamicFieldGenerator.tsx:41-42 | committing the value a control shows for an empty field can turn an accepted field into a rejected one |
| AuthSlice.ReducePreservesConsistency | curry-hub/client/store/slices/authSlice.ts:14-44 | each reducer keeps "authenticated exactly when a user is stored" |
| AuthSlice.RunPreservesConsistency | curry-hub/client/store/slices/authSlice.ts:14-44 | any sequence of reducers keeps that invariant |
| AuthSlice.ReachableStatesConsistent | curry-hub/client/store/slices/authSlice.ts:4-44 | every state reachable from the initial state satisfies the invariant |
| AuthSlice.SetUserSignsIn | curry-hub/client/store/slices/authSlice.ts:18-23 | `setUser` stores the user, sets authenticated, clears the error and stops loading |
| AuthSlice.SetErrorKeepsSession | curry-hub/client/store/slices/authSlice.ts:24-27 | `setError` records the message and stops loading, and leaves user and authentication unchanged |
| AuthSlice.OwnFieldOnly | curry-hub/client/store/slices/authSlice.ts:15-30 | `setLoading` and `clearError` each change only their own field |
| AuthSlice.LogoutRestoresInitialState | curry-hub/client/store/slices/authSlice.ts:31-35 | `logout` returns all four fields to their initial values, from any state |
| AuthSlice.RestoreKeepsLoading | curry-hub/client/store/slices/authSlice.ts:39-43 | `restoreAuth` signs the user in and leaves `isLoading` as it was |
| AuthSlice.AuthStore.constructor | curry-hub/client/store/slices/authSlice.ts:4-9 | the store starts with no user, not authenticated, not loading and no error |
| AuthSlice.AuthStore.SetLoading | curry-hub/client/store/slices/authSlice.ts:15-17 | the in-place reducer leaves the state the `setLoading` reduction gives |
| AuthSlice.AuthStore.SetUser | curry-hub/client/store/slices/authSlice.ts:18-23 | the in-place reducer leaves the state the `setUser` reduction gives |
| AuthSlice.AuthStore.SetError | curry-hub/client/store/slices/authSlice.ts:24-27 | the in-place reducer leaves the state the `setError` reduction gives |
| AuthSlice.AuthStore.ClearError | curry-hub/client/store/slices/authSlice.ts:28-30 | the in-place reducer leaves the state the `clearError` reduction gives |
| AuthSlice.AuthStore.Logout | curry-hub/client/store/slices/authSlice.ts:31-35 | the in-place reducer leaves the state the `logout` reduction gives |
| AuthSlice.AuthStore.RestoreAuth | curry-hub/client/store/slices/authSlice.ts:39-43 | the in-place reducer leaves the state the `restoreAuth` reduction gives |
| UseAuth.CheckCredentials | curry-hub/client/hooks/useAuth.ts:39-42 | an unknown e-mail fails, and every failure carries "Invalid email or password" |
| UseAuth.ExactlyThreeAccounts | curry-hub/client/hooks/useAuth.ts:33-37 | exactly the three listed e-mail/password pairs succeed, each with its listed role |
| UseAuth.WrongPasswordRefused | curry-hub/client/hooks/useAuth.ts:40-41 | a known e-mail with any password but its own is refused with "Invalid email or password", the same result as an unknown e-mail |
| UseAuth.NameOf | curry-hub/client/hooks/useAuth.ts:47 | the name is a prefix of the e-mail that contains no '@' and stops at the first '@' if there is one |
| UseAuth.NameOfSplit | curry-hub/client/hooks/useAuth.ts:47 | the name of "local@rest" is "local" whenever "local" has no '@' |
| UseAuth.AccountNames | curry-hub/client/hooks/useAuth.ts:33-47 | each of the three accounts signs in with the name before its "@example.com", which is "admin", "manager" or "user" |
| UseAuth.Authenticate | curry-hub/client/hooks/useAuth.ts:39-53 | sign-in fails exactly when the credentials do, with their message; on success the user has the given e-mail, the name before its '@' and the table's role, and the token starts with "mock-token-" |
| UseAuth.SignIn | curry-hub/client/hooks/useAuth.ts:29-64 | on success `setUser` is applied, so the store is authenticated with the new user; on failure the store is unchanged |
| UseAuth.SubmitSignIn | curry-hub/client/pages/SignIn.tsx:18-33 | an empty e-mail or password gives "Please fill in all fields" without touching the store; otherwise wrong credentials show "Invalid email or password" and leave the store unchanged, and right ones show no error and apply `setUser` with the signed-in user, so the store is authenticated |
| UseAuth.StoredNullBreaksConsistency | curry-hub/client/hooks/useAuth.ts:18-21 | as written, a stored user string "null" leaves the store authenticated with no user |
| UseAuth.RestoreOnMount | curry-hub/client/hooks/useAuth.ts:14-27 | the user is restored only when both keys are stored and the user parses; anything else stored is cleared; the auth invariant is kept |
| Sidebar.NoUserRendersNothing | curry-hub/client/components/Sidebar.tsx:62-64 | with no user the sidebar renders nothing |
| Sidebar.VisibleLinksFilter | curry-hub/client/components/Sidebar.tsx:67-70 | the visible links keep the sidebar's order and are exactly the links the user's role may see; a link without roles is seen by everyone |
| Sidebar.UsersLinkForAdminAndManager | curry-hub/client/components/Sidebar.tsx:36-41 | "Users" is visible exactly to admins and managers; the other four links are visible to every role |
| Sidebar.AtMostOneActive | curry-hub/client/components/Sidebar.tsx:25-56 | the hrefs are distinct, so no path makes two links active |
| RoleGuard.GuardDecision | curry-hub/client/components/RoleGuard.tsx:19-38 | children render exactly when a user exists and their role is allowed; otherwise the fallback renders if given, and "Access Denied" if not |
| RoleGuard.NoUserOrNoRolesDenies | curry-hub/client/components/RoleGuard.tsx:19 | without a user, or with an empty role list, the children never render |
| RoleGuard.MoreRolesNeverRevoke | curry-hub/client/components/RoleGuard.tsx:19 | allowing more roles never takes access away |
| UsersPage.FilteredUsersCharacterised | curry-hub/client/pages/Users.tsx:66-70 | the result keeps the users' order and holds exactly the users whose lowercased name or e-mail contains the lowercased query |
| UsersPage.EmptyQueryKeepsAll | curry-hub/client/pages/Users.tsx:66-70 | an empty query keeps all five users, so the empty state is not shown |
| UsersPage.CaptionWhenAllShown | curry-hub/client/pages/Users.tsx:107 | with all users shown the caption reads "Showing 5 of 5 users" |
| UsersPage.EmptyQueryCaption | curry-hub/client/pages/Users.tsx:107 | with an empty search box the page's caption reads "Showing 5 of 5 users" |
| UsersPage.CaseInsensitive | curry-hub/client/pages/Users.tsx:68-69 | a query and its upper-cased form find the same users |
| UsersPage.CountAndEmptyState | curry-hub/client/pages/Users.tsx:107-173 | at most five users are shown, and "No users found" appears exactly when no user matches |
| UsersPage.PageMatchesSidebarLink | curry-hub/client/pages/Users.tsx:74 | the page's guard admits exactly the users who see the sidebar's "Users" link |
| ComponentsPage.FindLabel | curry-hub/client/pages/Components.tsx:258 | the lookup finds nothing exactly when no option carries the value |
| ComponentsPage.FindLabelFirstMatch | curry-hub/client/pages/Components.tsx:335 | the label found is that of the first option with the value |
| ComponentsPage.EveryValueFindsItsLabel | curry-hub/client/pages/Components.tsx:71-77 | every option's value finds its own label |
| ComponentsPage.TriggerCaptionCases | curry-hub/client/pages/Components.tsx:257-259 | the trigger shows the placeholder for an empty selection, the option's label for a known value, and nothing for an unknown value |
| ComponentsPage.SingleSelectToggles | curry-hub/client/pages/Components.tsx:273-276 | picking the selected value clears it and picking another selects it; picking the same value twice returns to the start when it began selected, and to empty otherwise |
| ComponentsPage.AutocompleteCharacterised | curry-hub/client/pages/Components.tsx:375-379 | the autocomplete lists, in order, exactly the options whose lowercased label contains the lowercased value |
| ComponentsPage.AutocompleteEmptyListsAll | curry-hub/client/pages/Components.tsx:375-379 | with an empty value all five options are listed |
| ComponentsPage.ChosenOptionStaysListed | curry-hub/client/pages/Components.tsx:384 | after an option is chosen, its value filters the list and that option is still listed |
| ComponentsPage.ShowcaseState.constructor | curry-hub/client/pages/Components.tsx:85-88 | the page starts with "react" selected, ["react"] multi-selected, no file and an empty autocomplete |
| ComponentsPage.ShowcaseState.SelectSingle | curry-hub/client/pages/Components.tsx:273-276 | the single selection becomes the toggled value and nothing else changes |
| ComponentsPage.ShowcaseState.ToggleMulti | curry-hub/client/pages/Components.tsx:311-318 | checking appends the value and unchecking removes every occurrence; the box then shows the requested state |
| ComponentsPage.ShowcaseState.RemoveBadge | curry-hub/client/pages/Components.tsx:333 | clicking a badge removes every occurrence of its value and leaves the other values' counts unchanged |
| ComponentsPage.ShowcaseState.HandleFileChange | curry-hub/client/pages/Components.tsx:92-97 | the first chosen file is kept; an empty choice leaves the selection unchanged |
| ComponentsPage.ShowcaseState.SelectAutocomplete | curry-hub/client/pages/Components.tsx:384 | the chosen value replaces the autocomplete value and nothing else changes |
| Strings.LowerOfUpper | curry-hub/client/pages/Users.tsx:68-69 | lower-casing an upper-cased string equals lower-casing the original (ASCII) |
| Strings.ContainsIffOccurs | curry-hub/client/pages/Users.tsx:68-69 | `includes` holds exactly when the query occurs at some position |
| Strings.NatToStringRoundTrip | curry-hub/client/lib/validations.ts:10-19 | the decimal text of a bound in a message reads back as the bound |
| Strings.IntToStringInjective | curry-hub/client/lib/validations.ts:10-19 | distinct bounds give distinct message texts |
| Seqs.RemoveAll | curry-hub/client/components/DynamicFieldGenerator.tsx:162 | `filter(v => v !== x)` drops every x and keeps every other element with its count |
| Seqs.RemoveAllIdempotent | curry-hub/client/components/DynamicFieldGenerator.tsx:162 | removing a value twice is the same as removing it once |
| Strings.JsLength | curry-hub/client/lib/validations.ts:10-13 | JavaScript `length` lies between the number of characters and twice that |
| Strings.JsLengthOfBmp | curry-hub/client/lib/validations.ts:24 | JavaScript `length` equals the number of characters exactly when every character lies in the Basic Multilingual Plane |
| Seqs.FilterIsSubsequence | curry-hub/client/components/Sidebar.tsx:67-70 | `filter` keeps an order-preserving sub-list |

## Left out

- Rendering: JSX, CSS classes, icons, toasts and the react-hook-form `Controller` wiring are not modelled. `DynamicFieldGenerator.ControlFor` keeps only the attributes that carry a rule: input type, placeholder, disabled, length limits, rows, options, accept and multiple.
- Side effects are not modelled:
  - `localStorage` writes and removals: `RestoreOnMount` returns whether storage is cleared, and `SignIn` does not record the stored token;
  - `Math.random` ids, `new Date()` and `Date.now()`: these are parameters of `UseAuth.Authenticate`;
  - the Redux dispatch plumbing.
- `JSON.parse` is an input (`UseAuth.Parsed`): a failed parse, `null`, or a user record. Other JSON values (a number, an array) are not distinguished from a user record.
- The Zod library's e-mail and URL grammars, `z.coerce.date` and any explicit `validation` schema are uninterpreted, in `Validations.Grammars`. So is the ordering of issues across fields.
- `ValidationRules.required`, `optionalEmail` and `optionalUrl`, and `CommonSchemas`, are declared in validations.ts but not used by `getValidationSchema`, so they are not modelled.
- `customValidation` and `pattern` are never read by the schema derivation and have no effect in the model.
- Numbers are integers. A non-numeric `valueAsNumber` is the separate value `NotANumber`, which every number rule is taken to reject, as Zod does for NaN. Fractional values and `step` checks are not modelled.
- `DynamicFieldGenerator.OnChange` requires a multiselect's stored value to be a list or falsy. In the source `includes` on a truthy string would be a substring search for the checked state, and checking would spread the string into characters; only unchecking (`filter`) or a value that cannot be spread throws.
- Case folding covers ASCII letters only (`Strings.ToLower`, `Strings.ToUpper`), so the Users search and the autocomplete are modelled for ASCII case differences only. `toLowerCase` and `toUpperCase` on other characters are not modelled, nor is `toLocaleDateString`.
- Components.tsx state other than the selection widgets (text input, switch, checkbox, radio, popover open flags) is not modelled, nor is the badge caption "n selected".
- Navigation.tsx is not part of this model: its Users-link rule and active test are the ones `Sidebar` models. services/api.ts is not part of this model either, and neither are the presentation pages (Dashboard, Profile, NotFound, MainLayout).

## Findings

| source | as written | input that shows it | evidently intended | confidence | as-written member | corrected member |
|---|---|---|---|---|---|---|
| curry-hub/client/hooks/useAuth.ts:18-21 | the parsed stored user is dispatched to `restoreAuth` whatever it is | stored token "mock-token-1" and stored user "null": `JSON.parse` returns null, and the store becomes authenticated with no user | restore only a parsed user record and clear anything else, keeping "authenticated exactly when a user is stored" | not executed | UseAuth.StoredNullBreaksConsistency | UseAuth.RestoreOnMount |
