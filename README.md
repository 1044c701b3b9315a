# Fortalece PSE core plugin — a Dafny model

This project models the logic of the Fortalece PSE WordPress/BuddyBoss plugin (`fpse-core-plugin`): how a registration is validated, stored and answered, and the seeders, reports, sanitisers and permission rules around it. WordPress and BuddyBoss appear as abstract state:

- users, user meta, roles with capabilities, and user-role assignments;
- BuddyBoss groups and xProfile tables (groups, fields and options, field data);
- options and transients;
- the audit-events table.

Foreign functions become function-typed parameters or plain flags:

- text and URL sanitisers (`sanitize_text_field`, `esc_url_raw`);
- validators (`filter_var` for IPs and URLs, nonce verification);
- `strtotime`, `maybe_unserialize` and `file_exists`;
- whether a database write or an API call succeeds.

Each PHP file of the core is one module:

- `Php` (php.dfy) holds the shared PHP value type and PHP's `trim`, `strtolower`, `empty`, `isset` and `explode` semantics.
- `WordPress` holds the role registry.
- Code that is pure decision or lookup is written as functions.
- Code that loops or changes stored state is written as methods, and each method is proved against a specification function. Lemmas state what the source promises about that function.
- Objects whose fields change in place are classes:
  - the event recorder;
  - the rate limiter;
  - `ValidationResult`;
  - the user service;
  - the xProfile tables;
  - the state-group store;
  - the registration controller.

The model follows the code where the code and its own documentation disagree:

- The per-step contract table and `config/profiles.php` list different required fields for the same profile. `ProfileResolver.ContractAndConfigurationDisagree` shows one case.
- The contract documents its steps as 0-5 (src/Contracts/PerfilCamposContract.php:15-21), but `ReceivedPayload::validate_structure` accepts 1..6 (`Types.StructureErrors`). Both are modelled as written.
- `getProfilesByCategory` treats a missing category as `''`, while `getAllCategories` treats it as `'other'`. `ProfileResolver.CategoryDefaultsDisagree` shows the difference.
- Three outright defects are listed under Findings. Each is modelled as written and as intended.

Role names are member-type slugs: `RoleCreator.RoleName` is defined as `MemberTypeSeeder.MemberTypeForProfile`, which also serves as the private `getMemberTypeSlug`. These three PHP functions have identical bodies (src/Seeders/MemberTypeSeeder.php:254-282, src/Utils/RoleCreator.php:76-86 and 173-181).

## Model

| member | source | states |
|---|---|---|
| Autoload.RelativeClass | autoload.php:21-29 | a class has a relative name exactly when it starts with the plugin's namespace prefix, and prefix plus relative name gives back the class |
| Autoload.ClassFile | autoload.php:32 | the file path starts with `base/src/`, ends in `.php`, and is exactly that long around the relative class |
| Autoload.MappedFile | autoload.php:19-32 | a file is mapped exactly for classes in the plugin's namespace |
| Autoload.Load | autoload.php:19-41 | the autoloader answers true exactly when the class is in the namespace and its mapped file exists; classes outside the namespace are never loaded |
| Autoload.MappedSegment | autoload.php:32 | after `/src/` the path holds the relative class with every namespace separator turned into `/`, character for character, and no backslash remains |
| Autoload.ReplaceCharBack | autoload.php:32 | the separator replacement is undone by the reverse replacement for names without `/` |
| Autoload.MappedFileInjective | autoload.php:19-32 | two namespaced classes without `/` that map to the same file are the same class |
| Autoload.ServiceClassFile | autoload.php:19-32 | `FortaleceePSE\Core\Services\UserService` maps to `base/src/Services/UserService.php` |
| Events.Matching | src/Services/EventRecorder.php:157-205 | a filtered listing holds exactly the stored rows that pass the filter and is no longer than the table |
| Events.MatchingNewestFirst | src/Services/EventRecorder.php:157-205 | when ids grow with insertion, the filtered listing holds all and only the matching rows, in strictly decreasing id order (`ORDER BY created_at DESC`) |
| Events.MatchingOrdered | src/Services/EventRecorder.php:157-205 | the same ordering fact, stated for every table whose ids increase |
| Events.Newest | src/Services/EventRecorder.php:157-205 | `LIMIT n` returns at most n rows, each a stored matching row |
| Events.NewestIsNewestMatches | src/Services/EventRecorder.php:157-205 | the limited listing is newest first, and every matching row left out is older than all rows returned and the limit was reached |
| Events.NewestFromIncreasing | src/Services/EventRecorder.php:157-205 | the same fact for a table whose ids are known to increase |
| Events.CollatesExactly | src/Plugin.php:249-264 | two texts compare equal in the events table exactly when, trailing spaces aside, they have the same length and the same letters up to case |
| Events.CollatesIgnoresCase | src/Plugin.php:249-264 | `SP` matches `sp` and `registered ` matches `REGISTERED`, while `SP` does not match `RJ` |
| Events.GroupMetadataNamesStateGroup | src/Services/EventRecorder.php:87-91 | for a state code without surrounding blanks, in any letter case, the logged `group_slug` is the slug of the group the state-group seeder creates for that state |
| Events.EventRecorder.constructor | src/Services/EventRecorder.php:22 | a new recorder has an empty table and the first id 1 |
| Events.EventRecorder.RecordEvent | src/Services/EventRecorder.php:128-148 | a successful insert appends exactly one row and returns its fresh id; a failed insert changes nothing and returns false; ids stay increasing |
| Events.EventRecorder.RecordRegistration | src/Services/EventRecorder.php:38-40 | appends one `registered` row when the insert succeeds, nothing otherwise, and reports success exactly then |
| Events.EventRecorder.RecordUpdate | src/Services/EventRecorder.php:51-53 | appends one `user_updated` row when the insert succeeds, nothing otherwise |
| Events.EventRecorder.RecordProfileAssigned | src/Services/EventRecorder.php:63-65 | appends one `profile_assigned` row with empty metadata when the insert succeeds |
| Events.EventRecorder.RecordStateAssigned | src/Services/EventRecorder.php:75-77 | appends one `state_assigned` row with empty metadata when the insert succeeds |
| Events.EventRecorder.RecordGroupAssigned | src/Services/EventRecorder.php:87-91 | appends one `group_assigned` row whose metadata names the state's group slug; state and profile arrive in swapped parameter order |
| Events.EventRecorder.RecordValidationError | src/Services/EventRecorder.php:101-103 | appends one anonymous (user 0) `validation_error` row carrying the errors |
| Events.EventRecorder.RecordMemberTypeAssigned | src/Services/EventRecorder.php:114-116 | appends one `member_type_assigned` row, storing a missing state as '' |
| Events.EventRecorder.UserEvents | src/Services/EventRecorder.php:157-167 | returns the `absint(limit)` newest rows of the user `absint(userId)`, newest first, leaving out only older ones |
| Events.EventRecorder.EventsByType | src/Services/EventRecorder.php:176-186 | the same for the rows whose event matches the sanitised event name under the table's collation (letter case and trailing spaces ignored) |
| Events.EventRecorder.EventsByState | src/Services/EventRecorder.php:195-205 | the same for the rows whose state matches the sanitised state code under the collation, so `sp` finds rows stored as `SP` |
| Events.NewRowComesFirst | src/Services/EventRecorder.php:128-205 | a row just recorded is listed first by every query it matches |
| Logger.MaskSensitiveData | src/Utils/Logger.php:124-152 | masking keeps the shape: an array stays an array with the same keys in the same order, and a non-array or an empty sensitive list passes through unchanged |
| Logger.MaskedEntries | src/Utils/Logger.php:124-152 | entry by entry, a non-empty value under a sensitive key becomes '***MASKED***', a nested array elsewhere is masked in turn, and any other value is copied |
| Logger.MaskingLeaksNothing | src/Utils/Logger.php:124-152 | with a non-empty sensitive list no non-empty value remains under a sensitive key, at any depth |
| Logger.MaskIdempotent | src/Utils/Logger.php:124-152 | masking twice gives the same result as masking once |
| Logger.Log | src/Utils/Logger.php:42-72 | a line is written exactly when debugging is on and the level is configured; it carries the upper-cased level, the message and the masked context |
| Logger.ConfiguredLogging | config/debug.php:11-29 | with the shipped configuration nothing is written unless WP_DEBUG is on, debug messages never are, and a written context leaks no cpf, email, email_login, matricula or telefone |
| MemberTypeSeeder.MemberTypeForProfile | src/Seeders/MemberTypeSeeder.php:254-282 | a member-type slug starts with `fpse_`, is at most 40 characters, has no dash and no upper-case letter |
| MemberTypeSeeder.MemberTypeForProfileExact | src/Seeders/MemberTypeSeeder.php:274-282 | the slug's length is that of the identifier plus 5, capped at 40, and after the prefix each character is the identifier's, lower-cased with `-` turned into `_` |
| MemberTypeSeeder.MemberTypeForLowercaseId | src/Seeders/MemberTypeSeeder.php:274-282 | an identifier that is already lower case, dash-free and at most 35 long is kept verbatim after `fpse_` |
| MemberTypeSeeder.DefaultLabel | src/Seeders/MemberTypeSeeder.php:101 | the fallback label has the identifier's length, dashes become spaces and only the first character is upper-cased |
| MemberTypeSeeder.CreateMemberTypeTerm | src/Seeders/MemberTypeSeeder.php:99-173 | succeeds exactly when the post type exists and the write returns a positive id; reports `created` exactly for a successful insert of a new post; a missing post type or a WP_Error gives its own message |
| MemberTypeSeeder.Register | src/Seeders/MemberTypeSeeder.php:37-77 | the loop computes the registration report of the profiles, in configuration order |
| MemberTypeSeeder.FailedExactly | src/Seeders/MemberTypeSeeder.php:60-73 | a profile is among the failed ones exactly when it is configured and its term creation fails |
| MemberTypeSeeder.RegisterPartition | src/Seeders/MemberTypeSeeder.php:37-77 | without the BuddyBoss API the report holds one error only; otherwise every failing profile gives exactly one error, a profile is listed as created only after a successful creating write, and as registered only after a successful term and BuddyBoss's acceptance, both lists in configuration order |
| MemberTypeSeeder.RegisterAllPartition | src/Seeders/MemberTypeSeeder.php:51-76 | the same partition for the loop over the profiles |
| PerfilCamposContract.GetContract | src/Contracts/PerfilCamposContract.php:36-134 | the contract table covers exactly the profiles the contract names |
| PerfilCamposContract.ThirteenProfiles | src/Contracts/PerfilCamposContract.php:36-145 | a profile is valid if and only if it is one of the thirteen distinct profiles of the table |
| PerfilCamposContract.FieldsAtStep | src/Contracts/PerfilCamposContract.php:188 | a step lookup returns the list of the first entry for that step, or [] when the profile has no such step |
| PerfilCamposContract.FlattenMembership | src/Contracts/PerfilCamposContract.php:160-162 | merging the step lists keeps exactly the fields that some step lists |
| PerfilCamposContract.AllRequired | src/Contracts/PerfilCamposContract.php:155-167 | the profile's required fields are exactly those some step lists, each once |
| PerfilCamposContract.GetCamposObrigatorios | src/Contracts/PerfilCamposContract.php:155-167 | the merge-and-deduplicate loop returns the profile's required fields |
| PerfilCamposContract.GetCamposObrigatoriosPorEtapa | src/Contracts/PerfilCamposContract.php:178-189 | with no step, all required fields; with a step, that step's list, or [] for an unknown profile or an absent step |
| PerfilCamposContract.GetCamposOpcionais | src/Contracts/PerfilCamposContract.php:197-200 | an unknown profile has no optional fields |
| PerfilCamposContract.OptionalNeverRequired | src/Contracts/PerfilCamposContract.php:36-134 | no profile lists a field as both required and optional |
| PerfilCamposContract.MissingIn | src/Contracts/PerfilCamposContract.php:234-242 | the missing list holds exactly the required fields whose value is null, '' or blank, in their original order |
| PerfilCamposContract.CollectMissing | src/Contracts/PerfilCamposContract.php:234-242 | the loop collects exactly the missing required fields |
| PerfilCamposContract.Validate | src/Contracts/PerfilCamposContract.php:211-262 | the method computes the contract check of all required fields |
| PerfilCamposContract.ValidatePorEtapa | src/Contracts/PerfilCamposContract.php:274-325 | the method computes the contract check of one step, or of all steps for a null step |
| PerfilCamposContract.UnknownProfileRejected | src/Contracts/PerfilCamposContract.php:213-219 | an unknown profile is invalid, with an empty missing list, in both validators |
| PerfilCamposContract.StepValidationExact | src/Contracts/PerfilCamposContract.php:274-325 | for a known profile the missing list is exactly the step's missing required fields, and the check passes if and only if the profile is known and nothing is missing |
| PerfilCamposContract.CheckExact | src/Contracts/PerfilCamposContract.php:211-262 | the shared check passes if and only if the profile is known and no required field is missing, and lists exactly the missing ones |
| PerfilCamposContract.EmptyStepAlwaysValid | src/Contracts/PerfilCamposContract.php:222-229 | a step that requires nothing accepts any data of a known profile |
| PerfilCamposContract.GovernanceProfileAlwaysValid | src/Contracts/PerfilCamposContract.php:36-134 | `coordenacao-fortalece-pse` passes both validators at every step with any data |
| PerfilCamposContract.ValidateAgreesWithNullStep | src/Contracts/PerfilCamposContract.php:211-325 | `validate` and `validatePorEtapa` with a null step agree on validity and on the missing list |
| PermissionService.EndpointRule | src/Services/PermissionService.php:37-41 | an endpoint has a rule exactly when the endpoint table exists and lists it |
| PermissionService.CanRegisterExactly | src/Services/PermissionService.php:37-41 | registration is allowed if and only if the `register` rule is absent or `public` |
| PermissionService.CanAccessEndpoint | src/Services/PermissionService.php:84-106 | an endpoint without a rule is closed, a `public` one is open, and a `logged_in` one is open exactly to logged-in users |
| PermissionService.GetEndpointCapability | src/Services/PermissionService.php:114-125 | an endpoint demands a capability exactly when its rule is neither absent, `public` nor `logged_in`, and the capability is then the rule |
| PermissionService.AccessFollowsCapability | src/Services/PermissionService.php:84-125 | an endpoint that demands a capability is open exactly to users holding it; one that demands none is open only under a `public` rule or a `logged_in` rule for a logged-in user |
| PermissionService.UnlistedEndpointsShareLimit | src/Services/PermissionService.php:197-202 | endpoints without a limit of their own all get the same limit (the `default` entry, else 100), and listing some other endpoint does not change it |
| PermissionService.ConfiguredDecisions | config/permissions.php:11-46 | with the shipped rules anyone may register, `registration` needs `manage_fpse_registrations`, `stats` is closed, the register limit is 10 (1000 under WP_DEBUG), other endpoints get 100, and the admin roles are `administrator` and `fpse_admin`; the shipped capability list is the four `fpse` capabilities |
| PermissionService.CanAccessState | src/Services/PermissionService.php:212-221 | a state is accessible if and only if the user is logged in and the sanitised code is configured |
| PermissionService.GetAccessibleStates | src/Services/PermissionService.php:230-238 | a logged-in user sees every configured state, an anonymous one none |
| PermissionService.AccessibleStatesAgree | src/Services/PermissionService.php:212-238 | a state is accessible if and only if it is among the accessible states |
| PermissionService.Granted | src/Services/PermissionService.php:159-163 | granting adds exactly the listed capabilities and keeps the role's name |
| PermissionService.Revoked | src/Services/PermissionService.php:181-185 | revoking removes exactly the listed capabilities and keeps the role's name |
| PermissionService.GrantCapabilitiesToRole | src/Services/PermissionService.php:153-167 | fails and changes nothing for a missing role; otherwise only that role changes, gaining every configured capability; user-role assignments are untouched |
| PermissionService.RevokeCapabilitiesFromRole | src/Services/PermissionService.php:175-189 | fails and changes nothing for a missing role; otherwise only that role changes, losing exactly the configured capabilities |
| PermissionService.RevokeUndoesGrant | src/Services/PermissionService.php:153-189 | revoking after granting leaves the role's own capabilities outside the list; every listed capability is present after a grant and absent after a revoke |
| ProfileResolver.GetProfile | src/Services/ProfileResolver.php:45-50 | a profile is found exactly when the sanitised identifier is configured, and it is that identifier's profile |
| ProfileResolver.IsValidProfile | src/Services/ProfileResolver.php:58-60 | a profile is valid if and only if the sanitised identifier is configured |
| ProfileResolver.GetProfileLabel | src/Services/ProfileResolver.php:68-71 | an unknown profile has the empty label |
| ProfileResolver.GetProfileCategory | src/Services/ProfileResolver.php:79-82 | an unknown profile has the empty category |
| ProfileResolver.GetProfileDescription | src/Services/ProfileResolver.php:90-93 | an unknown profile has the empty description |
| ProfileResolver.GetProfileSpecificFields | src/Services/ProfileResolver.php:103-106 | an unknown profile has no specific fields |
| ProfileResolver.UnfilledAmongExact | src/Services/ProfileResolver.php:162-168 | the unfilled list holds exactly the listed fields that are unset, null or blank, in their original order |
| ProfileResolver.SameMissingValue | src/Services/ProfileResolver.php:164 | the resolver's notion of an unfilled value is the contract's notion of a missing value |
| ProfileResolver.SameMissingRuleAsContract | src/Services/ProfileResolver.php:156-172 | for any field list the resolver and the contract report the same missing fields |
| ProfileResolver.UnfilledFields | src/Services/ProfileResolver.php:162-168 | the loop collects exactly the required fields left unfilled, in required order |
| ProfileResolver.ValidateProfileSpecificFields | src/Services/ProfileResolver.php:156-172 | the loop computes the specific-field check of the profile |
| ProfileResolver.SpecificFieldCheckExact | src/Services/ProfileResolver.php:156-172 | the check lists exactly the unfilled specific fields, in order, and is valid if and only if every specific field is filled |
| ProfileResolver.ValidateProfile | src/Services/ProfileResolver.php:183-205 | the method computes the profile validation: existence first, then the specific fields |
| ProfileResolver.ProfileValidationOutcome | src/Services/ProfileResolver.php:183-205 | an unknown profile gives exactly the error "Perfil '…' não existe"; a known one gives at most one error; the validation passes if and only if the profile exists and all its specific fields are filled |
| ProfileResolver.GetProfilesByCategory | src/Services/ProfileResolver.php:114-126 | the result holds exactly the profiles whose category (absent counting as '') is the sanitised category, in configuration order |
| ProfileResolver.CategoryList | src/Services/ProfileResolver.php:133-145 | one category per profile, in order, with `other` for a profile without one |
| ProfileResolver.GetAllCategories | src/Services/ProfileResolver.php:133-145 | the loop returns the distinct categories in order of first appearance |
| ProfileResolver.AllCategoriesProperties | src/Services/ProfileResolver.php:133-145 | the category list has no duplicates, keeps first-appearance order, and covers every profile's category, `other` included when some profile has none |
| ProfileResolver.CategoryDefaultsDisagree | src/Services/ProfileResolver.php:114-145 | a profile without a category is listed under `other` by `getAllCategories`, yet `getProfilesByCategory` files it under '' and never under `other` |
| ProfileResolver.MetadataEntries | src/Services/ProfileResolver.php:215-227 | the metadata pairs are exactly the given fields that have report metadata, each with that metadata |
| ProfileResolver.GetProfileFieldMetadata | src/Services/ProfileResolver.php:215-227 | the loop computes the field metadata of the profile |
| ProfileResolver.FieldMetadataExact | src/Services/ProfileResolver.php:215-227 | a key has metadata if and only if it is a specific field of the profile with report metadata, and then it is that metadata |
| ProfileResolver.ContractAndConfigurationDisagree | config/profiles.php:13-18 | for `estudante-eaa` the per-step contract's required fields differ from the configured specific fields |
| RateLimit.ClientIp | src/Security/RateLimit.php:91-114 | the client address is either '' or a valid IP, and it is the sanitised header value whenever that value is a valid IP |
| RateLimit.ClientIpPrecedence | src/Security/RateLimit.php:91-114 | the first comma-separated entry of X-Forwarded-For, trimmed, wins over Client-IP, which wins over REMOTE_ADDR; with none of them the address is '' |
| RateLimit.TrimIsInfix | src/Security/RateLimit.php:101 | trimming adds no character, so the first forwarded entry holds no comma |
| RateLimit.CounterKey | src/Security/RateLimit.php:42 | a counter key is `fpse_rate_` followed by the endpoint, `_` and the address, each readable back at its position |
| RateLimit.CounterKeyPerAddress | src/Security/RateLimit.php:42 | within one endpoint, two different addresses never share a counter |
| RateLimit.RateLimiter.constructor | src/Security/RateLimit.php:23-58 | a limiter starts from the given transient store |
| RateLimit.RateLimiter.CheckLimit | src/Security/RateLimit.php:23-58 | the answer and the new transients are the limit decision for the current address, the sanitised endpoint and the limit |
| RateLimit.RateLimiter.ResetLimit | src/Security/RateLimit.php:69-82 | exactly the reset keys are deleted and every other transient is kept |
| RateLimit.ResetKeys | src/Security/RateLimit.php:69-82 | reset deletes at most one counter: the given address's when one is given, else the current address's when there is one, else none |
| RateLimit.LimitDecisionFacts | src/Security/RateLimit.php:23-58 | a refused request changes nothing; no other key ever changes; an accepted counted request raises its own counter by exactly one, never past the limit; counters stay non-negative; a zero limit refuses every counted request; without a usable address only debug mode lets a request through |
| RateLimit.RepeatedRequests | src/Security/RateLimit.php:23-58 | n repeated requests raise the counter to the limit at most, and the last one is accepted if and only if the starting count plus n is within the limit |
| RegistrationDto.MappingDistinct | src/Domain/RegistrationDTO.php:57-78 | the snake_case keys of the mapping are distinct, and so are its camelCase properties |
| RegistrationDto.StandardPropsAt | src/Domain/RegistrationDTO.php:81-85 | a standard property is set exactly when its snake_case key is set in the request, and then holds the request value |
| RegistrationDto.FromArray | src/Domain/RegistrationDTO.php:53-96 | the two loops build the DTO of the request |
| RegistrationDto.FromArrayFields | src/Domain/RegistrationDTO.php:53-96 | each standard property holds its key's request value when set and stays null otherwise; the profile-specific fields are exactly the unmapped entries other than `fpse_nonce` |
| RegistrationDto.StandardEntriesMembers | src/Domain/RegistrationDTO.php:132-136 | the standard part of `toArray` holds exactly the non-null properties under their snake_case keys |
| RegistrationDto.ToArray | src/Domain/RegistrationDTO.php:105-154 | the two loops build the array of the DTO |
| RegistrationDto.StandardEntriesOfDto | src/Domain/RegistrationDTO.php:53-136 | after `fromArray`, the standard part of `toArray` has distinct keys and holds exactly the mapped request entries that are not null |
| RegistrationDto.StandardEntriesDistinct | src/Domain/RegistrationDTO.php:132-136 | the standard part of `toArray` has no repeated key |
| RegistrationDto.RoundTrip | src/Domain/RegistrationDTO.php:53-154 | reading any key from `toArray(fromArray(data))` gives the request value, except that null values and `fpse_nonce` disappear |
| RegistrationDto.RoundTripUnmapped | src/Domain/RegistrationDTO.php:88-93 | an unmapped key comes back only through the profile-specific part, unless it is the nonce or null |
| RegistrationDto.RoundTripMapped | src/Domain/RegistrationDTO.php:81-85 | a mapped key comes back only through the standard part, unless it is null |
| RegistrationDto.NonceUnmapped | src/Domain/RegistrationDTO.php:57-78 | `fpse_nonce` is not a mapped key |
| RegistrationDto.ArrayOfDtoSplits | src/Domain/RegistrationDTO.php:105-154 | `toArray` after `fromArray` is the standard entries followed by the non-null profile-specific entries |
| RegistrationDto.UnmappedNotStandard | src/Domain/RegistrationDTO.php:132-136 | no unmapped key appears in the standard part |
| RegistrationDto.MappedNotSpecific | src/Domain/RegistrationDTO.php:88-93 | no mapped key is kept as a profile-specific field |
| RegistrationDto.EmptyAmong | src/Domain/RegistrationDTO.php:178-182 | the reported names are exactly those whose property is PHP-empty |
| RegistrationDto.EmptyAmongInOrder | src/Domain/RegistrationDTO.php:178-182 | the reported names keep the order of the required list |
| RegistrationDto.GetMinimumRequiredFields | src/Domain/RegistrationDTO.php:168-188 | the missing list is the PHP-empty minimum fields, and the result is valid if and only if none is missing |
| RegistrationDto.MinimumFieldsExact | src/Domain/RegistrationDTO.php:168-188 | email_login, perfil_usuario, estado, municipio and nome_completo are each reported exactly when their property is empty, in that order |
| ReportRegistry.ByState | src/Reports/ReportRegistry.php:50-61 | the report holds exactly the registrations whose state matches the sanitised state (text columns compared under the table's collation: letter case and trailing spaces ignored), listed newest first (strictly decreasing ids) whenever the table's ids increase in insertion order |
| ReportRegistry.ByProfile | src/Reports/ReportRegistry.php:69-80 | the report holds exactly the registrations whose profile matches the sanitised profile under the collation, listed newest first (strictly decreasing ids) whenever the table's ids increase in insertion order |
| ReportRegistry.ByStateAndProfile | src/Reports/ReportRegistry.php:89-102 | the report holds exactly the registrations matching both the sanitised state and profile under the collation, listed newest first (strictly decreasing ids) whenever the table's ids increase in insertion order |
| ReportRegistry.StateAndProfileIsIntersection | src/Reports/ReportRegistry.php:50-102 | the state-and-profile report holds exactly the rows both single-filter reports hold |
| ReportRegistry.ByDateRange | src/Reports/ReportRegistry.php:111-126 | the report holds exactly the registrations whose creation time lies between the start of the start day and the end of the end day, listed newest first (strictly decreasing ids) whenever the table's ids increase in insertion order |
| ReportRegistry.ByStateAndDate | src/Reports/ReportRegistry.php:136-153 | the report is the date-range report restricted to rows whose state matches the sanitised state under the collation, listed newest first (strictly decreasing ids) whenever the table's ids increase in insertion order |
| ReportRegistry.WholeDaysIncluded | src/Reports/ReportRegistry.php:111-126 | any well-formed time on the start day or the end day falls inside the range bounds |
| ReportRegistry.UserAuditTrail | src/Reports/ReportRegistry.php:281-292 | the trail lists every event of the user `absint(userId)`, and only those, newest first |
| ReportRegistry.MatchingAppend | src/Reports/ReportRegistry.php:50-292 | a newly recorded row extends each newest-first report at its head when it matches, and leaves the report unchanged otherwise |
| ReportRegistry.ValidationErrorCounted | src/Reports/ReportRegistry.php:262-273 | recording a validation error raises the statistics total by exactly one, and any event that does not collate with `validation_error` leaves it unchanged |
| ReportRegistry.PageRows | src/Reports/ReportRegistry.php:165-179 | a page holds at most `perPage` rows, the slice at its offset, and is empty past the end |
| ReportRegistry.CeilDiv | src/Reports/ReportRegistry.php:186 | the page count is the least number of pages that covers the total |
| ReportRegistry.GetAllRegistrations | src/Reports/ReportRegistry.php:162-188 | a page size of 0 throws; otherwise page and size are `absint`ed, the total counts every registration, the page count covers it tightly, and page 0 fails while other pages hold at most `perPage` registrations |
| ReportRegistry.FirstPagesArePrefix | src/Reports/ReportRegistry.php:162-188 | the first p pages together are the listing's first `p * perPage` rows |
| ReportRegistry.RegistrationsPageRows | src/Reports/ReportRegistry.php:162-188 | page n (from 1) holds the rows at offset `(n - 1) * perPage` of the newest-first listing |
| ReportRegistry.PagesCoverListing | src/Reports/ReportRegistry.php:162-188 | reading pages 1 to `total_pages` in turn lists every registration exactly once, in order |
| ReportRegistry.PagesAfterLastEmpty | src/Reports/ReportRegistry.php:162-188 | any page after `total_pages` is empty |
| ReportRegistry.Raw | src/Reports/ReportRegistry.php:300-307 | a query runs, and its rows are returned, exactly when its trimmed text begins with the word SELECT in some letter case; any other query answers nothing |
| ReportRegistry.SelectPrefixIgnoresCase | src/Reports/ReportRegistry.php:300-307 | the `strtoupper` prefix test is the same as asking that the first six characters spell "select" in any letter case |
| RoleCreator.CreateRolesFromProfiles | src/Utils/RoleCreator.php:37-65 | the loop leaves the role table and the report the role-creation function gives, and no user's role changes |
| RoleCreator.CreateRolesFacts | src/Utils/RoleCreator.php:37-65 | each profile's role goes to exactly one list, created when it was absent and updated when it existed; afterwards every profile's role exists, existing roles are unchanged and each new role grants exactly the default capabilities |
| RoleCreator.CreateRolesReportsEveryProfile | src/Utils/RoleCreator.php:37-65 | every profile's role name is reported as created or updated, and one whose role already existed is reported as updated and never as created |
| RoleCreator.RemoveAllRoles | src/Utils/RoleCreator.php:116-131 | the loop leaves the role table and the removed list the role-removal function gives, and no user's role changes |
| RoleCreator.RemoveRolesFacts | src/Utils/RoleCreator.php:116-131 | the removed list holds exactly the profile roles that existed, each once; afterwards no profile role exists, every other role is unchanged and no role is added |
| RoleCreator.AssignRoleByProfile | src/Utils/RoleCreator.php:142-165 | the role table, user roles and answer are those of the role assignment |
| RoleCreator.AssignRoleFacts | src/Utils/RoleCreator.php:142-165 | assignment fails, changing nothing, exactly when the role is missing and the profile is not configured; otherwise the role exists, the user holds it as the only role, no other user changes, and the only role that may be added is the profile's, with the default capabilities |
| RoleCreator.RoleExistsAfterAssignment | src/Utils/RoleCreator.php:142-192 | a successful assignment leaves the profile's role registered, and it succeeds only when `roleExistsForProfile` already held or the profile is configured |
| SettingsPage.InputLines | src/Admin/SettingsPage.php:691-704 | a string is split on newlines, so is an array holding one string under index 0, any other array is taken element by element, and anything else gives no lines |
| SettingsPage.NormalizeOrigin | src/Admin/SettingsPage.php:709-730 | a blank line is skipped; a kept line is non-empty, does not end in `/`, and begins with `https://` when it had no scheme; a line is skipped for a bad start only when it has no scheme and does not begin like a host name |
| SettingsPage.TrimRightKeepsNonSlashPrefix | src/Admin/SettingsPage.php:730 | stripping trailing slashes never cuts into the added `https://` prefix |
| SettingsPage.CleanOrigin | src/Admin/SettingsPage.php:709-738 | a kept origin is non-empty, a valid URL, and the escaped form of the normalised line |
| SettingsPage.CleanOrigins | src/Admin/SettingsPage.php:708-739 | the loop keeps exactly the origins some line yields |
| SettingsPage.CleanLines | src/Admin/SettingsPage.php:690-747 | the per-line loop keeps the normalised valid origins of the lines, in order |
| SettingsPage.SanitizeCorsOrigins | src/Admin/SettingsPage.php:690-747 | the method returns the sanitised origins of the input |
| SettingsPage.SanitizedOriginsFacts | src/Admin/SettingsPage.php:690-747 | the sanitised list has no duplicates, keeps first-occurrence order, holds exactly the origins some line yields, and every one is valid and non-empty |
| SettingsPage.BlankLinesDropped | src/Admin/SettingsPage.php:713-716 | a blank or whitespace-only line contributes nothing |
| SettingsPage.GetCorsOrigins | src/Admin/SettingsPage.php:756-771 | a stored non-empty array is returned as is; otherwise the four development origins; the answer is never empty |
| SettingsPage.ProcessTextareaStoresCleanList | src/Admin/SettingsPage.php:53-66 | the filter stores either the old value untouched (no posted string and no array value) or a list of distinct, non-empty origins that all pass URL validation |
| WordPress.RoleRegistry.constructor | src/Services/PermissionService.php:155 | a role registry starts from the given roles and user-role assignments |
| StateGroupSeeder.GroupStore.constructor | src/Seeders/StateGroupSeeder.php:79-139 | a group store starts from the given groups and next group id |
| StateGroupSeeder.GroupSlugShape | src/Seeders/StateGroupSeeder.php:80-81 | a group slug is `estado-` followed by the trimmed code, has that length and holds no upper-case letter |
| StateGroupSeeder.GroupNameUpperCode | src/Seeders/StateGroupSeeder.php:80-82 | the group name holds no lower-case letter after `Estado - ` |
| StateGroupSeeder.LookupFindsSeededSlug | src/Seeders/StateGroupSeeder.php:261-266 | `getGroupByUF` asks for the very slug `createOrUpdateStateGroup` writes, whatever the code's letter case |
| StateGroupSeeder.Upsert | src/Seeders/StateGroupSeeder.php:79-139 | the write succeeds exactly when it is accepted and does not yield id 0; on success the slug's group exists, private, named after the code, and its id is returned; `created` holds exactly for a new slug; an update keeps the group's id; a failure changes nothing and gives the update or create message |
| StateGroupSeeder.UpsertKeepsOtherGroups | src/Seeders/StateGroupSeeder.php:79-139 | no group is removed, groups under other slugs are unchanged, and the only slug that may be added is the state's |
| StateGroupSeeder.CreateOrUpdateStateGroup | src/Seeders/StateGroupSeeder.php:79-139 | the answer, groups and next id are those of one upsert |
| StateGroupSeeder.GetGroupByUF | src/Seeders/StateGroupSeeder.php:261-266 | a group is found exactly when its slug is stored |
| StateGroupSeeder.GroupFoundAfterUpsert | src/Seeders/StateGroupSeeder.php:79-266 | after a successful upsert `getGroupByUF` finds the group whose id was returned |
| StateGroupSeeder.SeedStep | src/Seeders/StateGroupSeeder.php:51-62 | each state adds exactly one entry, to created, updated or errors |
| StateGroupSeeder.Seed | src/Seeders/StateGroupSeeder.php:36-70 | the report, groups and next id are those of seeding the configured states in order |
| StateGroupSeeder.SeedPartition | src/Seeders/StateGroupSeeder.php:36-70 | without the groups API one error is reported and nothing changes; otherwise the three lists together are as long as the states, created and updated keep configuration order, each error names a configured state and a failure message, and the report is exactly each state routed by its own `createOrUpdateStateGroup` answer |
| StateGroupSeeder.SeedAllRoutes | src/Seeders/StateGroupSeeder.php:50-63 | the loop's created list is, in order, the states whose answer was a creation, updated those whose answer was an update, and errors the failure line of each state whose write failed |
| StateGroupSeeder.SeedRoutesEachState | src/Seeders/StateGroupSeeder.php:50-63 | with each state configured once, a state is in created exactly when its group was created, in updated exactly when it was updated, and its failure line is in errors when its write failed |
| StateGroupSeeder.SeedAllErrors | src/Seeders/StateGroupSeeder.php:50-63 | every error the loop reports names a configured state |
| StateGroupSeeder.SeedLeavesGroups | src/Seeders/StateGroupSeeder.php:36-70 | seeding removes no group, and every state whose write was accepted can then be found by `getGroupByUF` |
| Types.ValidationResult.constructor | src/Contracts/Types.php:54-57 | a result starts with the given validity and errors |
| Types.ValidationResult.Success | src/Contracts/Types.php:62-64 | `success()` gives a fresh valid result with no errors |
| Types.ValidationResult.Failure | src/Contracts/Types.php:69-71 | `failure(errors)` gives a fresh invalid result carrying the errors |
| Types.ValidationResult.AddError | src/Contracts/Types.php:76-82 | the result becomes invalid and gains exactly one error at the end, keeping the earlier ones |
| Types.ValidationResult.ToArray | src/Contracts/Types.php:87-92 | the array has exactly the keys `valid` and `errors`, with the current validity and the collected errors as a list, in order |
| Types.ValueList | src/Contracts/Types.php:87-92 | a PHP list holds the given values in order |
| Types.AfterErrors | src/Contracts/Types.php:76-82 | after a run of `add_error` calls the result is valid only if it was and nothing was added, and the old errors are followed by one entry per call, holding that call's field and message, in call order |
| Types.AddErrors | src/Contracts/Types.php:76-82 | calling `add_error` for each pair in turn ends in that state |
| Types.ValidationErrorResponseArray | src/Contracts/Types.php:138-183 | a validation-error response has status 400 and serialises to `success` false and its message, with `errors` only when the list is not empty |
| Types.ServerErrorResponseArray | src/Contracts/Types.php:152-183 | a server-error response has status 500 and serialises to `success` false and its message, nothing else |
| Types.Optional | src/Contracts/Types.php:165-183 | an optional entry holds its key exactly when it is present |
| Types.ResponseArrayKeys | src/Contracts/Types.php:165-183 | the serialised response always holds `success`, holds `message`, `errors` and `nextStep` exactly when there is one (errors when non-empty), and nothing else |
| Types.SuccessResponseArray | src/Contracts/Types.php:124-183 | a success response serialises to exactly success, message and nextStep |
| Types.LeadingDigits | src/Contracts/Types.php:207-208 | the integer cast reads a prefix of decimal digits that is the longest one: the next character, if any, is not a digit |
| Types.FromRequest | src/Contracts/Types.php:202-211 | a payload is built exactly when both `etapaAtual` and `data` are set, with the step cast to an integer and the data to an array |
| Types.StructureErrors | src/Contracts/Types.php:217-232 | validation adds no error exactly when the step lies in 1..6, and at most one error otherwise |
| Types.ValidateStructure | src/Contracts/Types.php:217-232 | a fresh result, valid if and only if the step lies in 1..6 |
| UserService.CamelToSnake | src/Services/UserService.php:371-380 | the converted key holds no capital letter; a key already matching the snake_case pattern is kept; any other key neither starts nor ends with `_` |
| UserService.CamelToSnakeOnlyLowercases | src/Services/UserService.php:371-380 | apart from underscores the conversion only lower-cases: dropping the underscores from the result gives the (lower-cased) input without its underscores |
| UserService.CamelToSnakeIdempotent | src/Services/UserService.php:371-380 | converting an already converted key changes nothing |
| UserService.Converted | src/Services/UserService.php:376-379 | a key outside the pattern has its capitals marked with `_`, underscores trimmed at both ends, and is lower-cased |
| UserService.CamelToSnakeEmailLogin | src/Services/UserService.php:371-380 | `emailLogin` becomes `email_login` |
| UserService.CamelToSnakeKeepsSnake | src/Services/UserService.php:371-380 | `nome_completo` is left alone |
| UserService.CamelToSnakeLeadingCapital | src/Services/UserService.php:371-380 | `Nome` becomes `nome`, the leading underscore being trimmed |
| UserService.CamelToSnakeAcronym | src/Services/UserService.php:371-380 | `CEP` becomes `c_e_p` |
| UserService.MetaFrame | src/Services/UserService.php:268-326 | storing meta changes only the user's written keys; every other user and key keeps its value |
| UserService.MetaWritesBothKeys | src/Services/UserService.php:284-307 | when written keys do not collide, every entry other than '' and null ends up under its snake_case key and under the `fpse_`-prefixed key |
| UserService.WriteMetaKeeps | src/Services/UserService.php:284-307 | one write touches only its two keys |
| UserService.PrefixSeparates | src/Services/UserService.php:284-307 | unprefixed keys and `fpse_`-prefixed keys never collide |
| UserService.WriteMetaSets | src/Services/UserService.php:284-307 | one write puts the value under both keys |
| UserService.PublicMeta | src/Services/UserService.php:347-358 | the listed meta holds no private (underscore) key and only keys the user has |
| UserService.GetUserData | src/Services/UserService.php:334-361 | the loop builds the user's data |
| UserService.PublicMetaLookup | src/Services/UserService.php:347-358 | every public meta key carries its first value passed through `maybe_unserialize` |
| UserService.PublicMetaDistinct | src/Services/UserService.php:347-358 | the listed meta keys are distinct |
| UserService.UserDataFacts | src/Services/UserService.php:334-361 | an unknown user gives no data; no private key appears; every public meta key carries its first value unserialised; `id`, `email` and `display_name` come from the user unless a meta key overrides them |
| UserService.IndexOfKey | src/Services/UserService.php:347-358 | a key present in an array has a position holding it |
| UserService.FindByLoginExact | src/Services/UserService.php:67 | `get_user_by('login')` answers the first user whose login equals the trimmed value up to letter case, and nothing exactly when no user's login does |
| UserService.UserColumnMatchesCollates | src/Services/UserService.php:67-71 | on a stored (trimmed) column, the lookup comparison is the users table's case-insensitive, trailing-space-padding collation applied to the trimmed value |
| UserService.LookupIgnoresCaseAndOuterSpace | src/Services/UserService.php:67-71 | a stored e-mail "a@b" is found by " A@B" and a stored login "ana" by "ANA" |
| UserService.FindByEmailExact | src/Services/UserService.php:71 | `get_user_by('email')` answers the first user whose e-mail equals the trimmed value up to letter case, and nothing exactly when no user's e-mail does |
| UserService.Decide | src/Services/UserService.php:42-81 | an update always targets an existing user |
| UserService.DecideOrder | src/Services/UserService.php:42-135 | a failed minimum check wins; then a user whose login matches (or, failing that, whose e-mail matches a non-empty e-mail) is updated, matching as `get_user_by` does: trimmed and without letter case; `createUser`'s `username_exists` check can never fire; when no login matches, a user whose e-mail matches a non-empty e-mail is the one updated; a creation (or a password or `wp_create_user` rejection) happens only when no user's login matches and, for a non-empty e-mail, no user's e-mail matches; a creation needs a password of at least 6 characters |
| UserService.FindByLoginSnoc | src/Services/UserService.php:67 | after adding a user, an earlier match still wins and the new user is found only when no earlier one matches the login |
| UserService.ResubmitUpdates | src/Services/UserService.php:42-81 | submitting the same registration again after it created a user (stored with the trimmed login, as `wp_insert_user` stores it) updates that user rather than creating another |
| UserService.UserService.constructor | src/Services/UserService.php:42-81 | the service starts with no users and no meta, sharing the given event recorder |
| UserService.UserService.WriteAllMeta | src/Services/UserService.php:268-326 | the loop over the registration array leaves the meta table as the specified meta writes of every entry |
| UserService.UserService.StoreUserMeta | src/Services/UserService.php:268-326 | the meta table becomes the stored meta of the registration array; users are untouched |
| UserService.UserService.CreateOrUpdate | src/Services/UserService.php:42-81 | the answer is `Answer` of the decision `Decide` takes on the users before the call; users, meta and the next user id become those of that path (`ServiceUsers`, `ServiceMeta`, the id advancing by one only on a creation); the events table gains exactly the rows `ServiceRows` gives for the path, at the next event ids |
| UserService.UserService.CreateUser | src/Services/UserService.php:89-193 | the answer, users, meta, next user id and event rows are those of `CreatePath`: a taken login, a short or empty password and a `WP_Error` fail with their message and change nothing; otherwise the user is added under the next id with its meta and a registered row |
| UserService.UserService.UpdateUser | src/Services/UserService.php:202-257 | the user is rewritten, its meta stored and a user_updated event recorded, and the answer names that user |
| UserService.Answer | src/Services/UserService.php:42-193 | `createOrUpdate` succeeds exactly on an update or a creation, and every success carries a user id |
| UserService.ServiceEffects | src/Services/UserService.php:42-257 | a declined registration leaves users and meta as they were; only a creation adds a user, exactly one; one row is appended, when the insert succeeds, exactly on a success or a missing-fields decline, and after a success it names the answered user at the next event id |
| UserXProfileFields.DateFallbackShape | src/Services/UserService.php:1125-1131 | a value starting like `YYYY-MM-DD` or `DD/MM/YYYY` becomes a 19-character `YYYY-MM-DD 00:00:00`; anything else is untouched |
| UserXProfileFields.DateFallbackIdempotent | src/Services/UserService.php:1125-1131 | normalising a date a second time changes nothing |
| UserXProfileFields.DateFallbackDayFirst | src/Services/UserService.php:1129-1130 | the slash form is read day first: `15/01/2024` becomes `2024-01-15 00:00:00` |
| UserXProfileFields.PadIntWidth | src/Services/UserService.php:1128 | `%0Nd` of a number below 10^N gives exactly N digits |
| UserXProfileFields.DateOfPartsShape | src/Services/UserService.php:1135-1140 | year, month and day parts in range give a well-formed `YYYY-MM-DD 00:00:00` |
| UserXProfileFields.NormalizeValue | src/Services/UserService.php:1114-1174 | no boolean ever reaches BuddyBoss |
| UserXProfileFields.NormalizeValueFacts | src/Services/UserService.php:1114-1174 | outside `datebox` fields a value is passed on as received, a boolean as '1' or '0'; a date `strtotime` rejects but that starts like a date is still stored in the canonical form |
| UserXProfileFields.StepOf | src/Services/UserService.php:1016-1090 | a key is skipped exactly when its value is null or ''; an attempted key has a non-zero field id, a known field type and its normalised value |
| UserXProfileFields.ProcessCounts | src/Services/UserService.php:1016-1313 | every key is counted exactly once as saved, skipped or failed, and one write is made per saved key plus at most one per failed key |
| UserXProfileFields.ProcessCalls | src/Services/UserService.php:1233 | every write stores, under a mapped key's field id, that key's normalised value, never a boolean |
| UserXProfileFields.StoredCounts | src/Services/UserService.php:937-1338 | with the xProfile API the mapped keys split into saved, skipped and failed; without it nothing is counted |
| UserXProfileFields.ProcessWritesKnownField | src/Services/UserService.php:1016-1313 | a set, non-empty mapped key with a known field is written with its normalised value |
| UserXProfileFields.ProcessKeys | src/Services/UserService.php:937-1338 | the loop over the mapped keys ends with the tally the keys specify, one key at a time |
| UserXProfileFields.StoreXProfileFields | src/Services/UserService.php:937-1338 | the loop's tally is the intended tally, and the counters together cover every mapped key |
| UserXProfileFields.RunAsWrittenAgrees | src/Services/UserService.php:1016-1313 | the code as written finishes exactly when no key reaches a `warn` call, and then agrees with the intended tally; when it throws, the writes made so far are a prefix of the intended ones |
| UserXProfileFields.NoMemberTypeThrows | src/Services/UserService.php:1091-1110 | with no member type, the first set, non-empty mapped key with a known field throws at the `warn` call |
| UserXProfileFields.NoMemberTypeExample | src/Services/UserService.php:1106 | a concrete request (a CPF, no member type) throws |
| UserXProfileFields.StoredAsWrittenAgrees | src/Services/UserService.php:937-1338 | the code as written finishes exactly when the xProfile API is missing or the member-type API is present and no key warns, and then agrees with the intended tally |
| XProfileFieldSeeder.Filter | src/Seeders/XProfileFieldSeeder.php:520 | a `DELETE` keeps exactly the rows outside its condition, in table order |
| XProfileFieldSeeder.FilterAppend | src/Seeders/XProfileFieldSeeder.php:520 | filtering distributes over concatenation |
| XProfileFieldSeeder.FirstWhere | src/Seeders/XProfileFieldSeeder.php:532-561 | `LIMIT 1` finds a matching row when one exists, and none otherwise |
| XProfileFieldSeeder.NameIndex | src/Seeders/XProfileFieldSeeder.php:615 | `array_search` over the definition names gives a position holding the name, or nothing when no definition has it |
| XProfileFieldSeeder.DefinitionKeysStartWithLetter | src/Seeders/XProfileFieldSeeder.php:19-213 | every definition key starts with a lower-case letter |
| XProfileFieldSeeder.RemovedOptionKeyAsWrittenMisses | src/Seeders/XProfileFieldSeeder.php:615 | the option key deleted as written (a numeric position) is never the key the seeder caches under, so the cached id of every removed field survives |
| XProfileFieldSeeder.RemovedOptionKeyMatches | src/Seeders/XProfileFieldSeeder.php:322 | the corrected key of every definition's name is the key the seeder caches that field under |
| XProfileFieldSeeder.RemovedOptionKeyCpf | src/Seeders/XProfileFieldSeeder.php:615 | removing the CPF field deletes `fpse_xprofile_field_0` as written, where `fpse_xprofile_field_cpf` is meant |
| XProfileFieldSeeder.ApiCreatedAsWrittenOnlyZero | src/Seeders/XProfileFieldSeeder.php:370-382 | as written the `created` flag is true exactly when the new id is 0, whatever the id known before |
| XProfileFieldSeeder.ApiCreatedCounterexample | src/Seeders/XProfileFieldSeeder.php:370-382 | with no prior field and a new id of 7 the field is reported as updated, though it was created |
| XProfileFieldSeeder.ApiCreatedSeparates | src/Seeders/XProfileFieldSeeder.php:320-382 | the corrected flag depends only on the id known before: a creation exactly when none was known |
| XProfileFieldSeeder.OptionRowsShape | src/Seeders/XProfileFieldSeeder.php:479-505 | one option row per option, in order, the i-th carrying the i-th label, numbered i + 1 and with the i-th fresh id |
| XProfileFieldSeeder.OptionsAfterUpdate | src/Seeders/XProfileFieldSeeder.php:514-524 | after the update a field's options are exactly the given ones, in order, and no old option survives |
| XProfileFieldSeeder.ReportOfSizes | src/Seeders/XProfileFieldSeeder.php:239-261 | every definition adds exactly one report entry, and created and updated keep definition order |
| XProfileFieldSeeder.ReportOfLists | src/Seeders/XProfileFieldSeeder.php:243-254 | a succeeded definition is listed as created or updated by its flag, a failed one as an error line |
| XProfileFieldSeeder.ReportOfOnly | src/Seeders/XProfileFieldSeeder.php:243-254 | only succeeded definitions appear as created or updated, according to their flag |
| XProfileFieldSeeder.DefinitionKeysListed | src/Seeders/XProfileFieldSeeder.php:19-213 | the definition table carries exactly the 23 keys of `$fieldDefinitions`, in source order |
| XProfileFieldSeeder.DefinitionKeysDistinct | src/Seeders/XProfileFieldSeeder.php:19-213 | no two definitions share a key |
| XProfileFieldSeeder.Tables.constructor | src/Seeders/XProfileFieldSeeder.php:269-310 | the tables start empty, present or not as given |
| XProfileFieldSeeder.Tables.GetOrCreateFieldGroup | src/Seeders/XProfileFieldSeeder.php:269-310 | 0 without the tables; the existing group's id when one has the name; otherwise a new group under the next id, or 0 when the insert fails; a second group of that name is never created, and a non-zero answer names a group of that name |
| XProfileFieldSeeder.Tables.CreateFieldOptions | src/Seeders/XProfileFieldSeeder.php:479-505 | exactly the option rows of the given options are appended, each under a fresh id |
| XProfileFieldSeeder.Tables.UpdateFieldOptions | src/Seeders/XProfileFieldSeeder.php:514-524 | the field's old option rows are deleted and the given ones created, so its options are exactly those |
| XProfileFieldSeeder.Tables.GetFieldId | src/Seeders/XProfileFieldSeeder.php:532-561 | a cached id is returned as is; a key without a definition (or without the tables) gives 0; otherwise the id of the first field of the definition's name, cached when non-zero |
| XProfileFieldSeeder.Tables.CreateOrUpdateField | src/Seeders/XProfileFieldSeeder.php:320-470 | with the API a `WP_Error` fails with its message and changes no row; a success caches the returned id, creates a select box's options and reports creation exactly when no id was known; without the API a failed write reports the database error, an existing row is rewritten (options re-created), and otherwise a new row is inserted, its options created and its id cached |
| XProfileFieldSeeder.Tables.CacheKnownId | src/Seeders/XProfileFieldSeeder.php:322-339 | the id known before the write is the cached one or the one found by name in the group, and finding one by name caches it under the definition's option key, leaving every other option as it was |
| XProfileFieldSeeder.Tables.UpdateFieldRow | src/Seeders/XProfileFieldSeeder.php:416-442 | the existing row takes the definition's data under its own id, and a select box's options are re-created |
| XProfileFieldSeeder.Tables.ReplaceFieldRow | src/Seeders/XProfileFieldSeeder.php:418-432 | the row with that id is rewritten and nothing else changes |
| XProfileFieldSeeder.Tables.InsertFieldRow | src/Seeders/XProfileFieldSeeder.php:443-469 | a new row under the next id, its options after it, and its id cached |
| XProfileFieldSeeder.Tables.SeedDefinitions | src/Seeders/XProfileFieldSeeder.php:243-259 | one result per definition, in order, and the report is the one those results build; without the field API the i-th result succeeds exactly when the database write for the i-th key succeeds, and carries the database error otherwise; with the field API each result is `xprofile_insert_field`'s answer for the id known before the loop, each key's option holds the answered (or known) id, every other option stays, and the fields gain exactly each inserted select box's options, in order; groups and data stay as they were |
| XProfileFieldSeeder.Tables.SeedField | src/Seeders/XProfileFieldSeeder.php:243-259 | one definition is handed to `createOrUpdateField`: groups and data stay as they were; with the API the result and rows are those of its answer for the id known before the call; without it, those of the table fallback, which on installed tables succeeds exactly when the write does and otherwise carries the database error |
| XProfileFieldSeeder.Tables.Seed | src/Seeders/XProfileFieldSeeder.php:218-262 | without the group API only the unavailable error is reported and nothing changes; with it, the group error is reported, changing no field, exactly when the tables are missing or no group of that name exists and its insert fails; whenever the group exists or is created there is one result per definition, in order, and they decide the report; without the field API each result succeeds exactly when its database write does; with it, on installed tables, the results, cached ids and added option rows are those of `xprofile_insert_field`'s answers for the ids known before the loop, and no other option and no data changes |
| XProfileFieldSeeder.Tables.DeleteField | src/Seeders/XProfileFieldSeeder.php:602-610 | the rows kept are, in order, exactly those that are neither options of the field nor, when the write succeeds, the field itself; its data is deleted; `deleted` says whether that last write removed a row |
| XProfileFieldSeeder.Tables.RemoveExistingFields | src/Seeders/XProfileFieldSeeder.php:571-694 | without the tables only an error is returned; otherwise the report is exactly the plugin group's fields, each listed as removed the first time when its delete succeeds and as "Falha ao remover campo: …" otherwise, followed by one entry per definition name whose first top-level field, in the tables the first loop left, sits in an existing non-native group (removed when its delete succeeds, a failure otherwise), and each such field removed is gone; no row or option is added, the top-level fields of native groups and their data are kept, only the plugin's group is dropped, every top-level field of it whose delete succeeded is gone, and every field listed as removed has its cached option deleted; every row whose id and parent id lie outside the plugin group's top-level fields and the name-matching loop's targets is kept, and so is every data row of a field outside them |
| XProfileFieldSeeder.Tables.RemovePluginGroup | src/Seeders/XProfileFieldSeeder.php:588-630 | when the plugin's group exists, its top-level fields are removed in table order and then the group; the report, rows and groups are exactly those of that loop; without the group nothing changes |
| XProfileFieldSeeder.Tables.RemoveField | src/Seeders/XProfileFieldSeeder.php:601-619 | one eligible field is deleted: it is listed as removed, with its option dropped, exactly when its row was there and its delete succeeds, and reported as "Falha ao remover campo: …" otherwise; the rows kept are exactly those the deletion keeps, in order, and the removal invariant is kept |
| XProfileFieldSeeder.Tables.RemoveGroupFields | src/Seeders/XProfileFieldSeeder.php:594-623 | the group's top-level fields are removed in table order: the report lists each as removed the first time when its delete succeeds and as a failure otherwise, the rows kept are those outside the deleted fields and their options, so a remaining top-level field of the group is one whose delete failed; then the group, and only it, is dropped |
| XProfileFieldSeeder.Tables.RemoveNamedFields | src/Seeders/XProfileFieldSeeder.php:634-689 | for each definition name, in order, the first top-level field carrying it is removed when its group exists and is not native: the report gains the name as removed when the delete succeeds and "Falha ao remover campo: " with the name otherwise, nothing for other names, and each removed field is gone; groups are untouched, and the ids touched are only those of the targets |
| XProfileFieldSeeder.Tables.RemoveNamedList | src/Seeders/XProfileFieldSeeder.php:639-687 | the loop over definitions with distinct names: the report is the one each name's target builds, and every target whose delete succeeds is gone; the ids touched are only those of the targets |
| XProfileFieldSeeder.Tables.RemoveNamed | src/Seeders/XProfileFieldSeeder.php:640-686 | one name: its first top-level field in the current rows is its target in the rows the loop started from; removing it extends the report by the target's entry |
| XProfileFieldSeeder.Tables.RemoveListed | src/Seeders/XProfileFieldSeeder.php:601-619 | one field of the plugin's group: the report and the rows kept take one more step of the loop's specification |
| XProfileFieldSeeder.NamedStep | src/Seeders/XProfileFieldSeeder.php:639-687 | removing one name's target leaves the first match of every later name where it was, extends the report by that target's entry, and adds it to the targets gone |
| XProfileFieldSeeder.OtherNamesKept | src/Seeders/XProfileFieldSeeder.php:640-643 | deleting the field matched for one definition leaves the first top-level match of every later definition's name unchanged |
| XProfileFieldSeeder.GroupStep | src/Seeders/XProfileFieldSeeder.php:601-619 | one field of the group's loop: filtering out what its deletion removes is filtering by the grown id sets, and when its delete succeeds its row is still there exactly when it was not met before |
| XProfileFieldSeeder.RemovedWithin | src/Seeders/XProfileFieldSeeder.php:594-686 | the removal invariant, with the ids touched inside a bound, keeps every row whose id and parent lie outside the bound and every data row of a field outside it |
| XProfileFieldSeeder.KnownAtStep | src/Seeders/XProfileFieldSeeder.php:243-255 | with distinct keys, the id known when the loop reaches a definition is the one known before the loop |
| XProfileFieldSeeder.ApiSeedStep | src/Seeders/XProfileFieldSeeder.php:243-255 | one more definition answered by `xprofile_insert_field` extends the closed form of the loop over the earlier ones |
| XProfileFieldSeeder.ApiSeedRowsUngrouped | src/Seeders/XProfileFieldSeeder.php:479-505 | the rows the API path adds are options, outside every group |
| XProfileFieldSeeder.OptionKeyInjective | src/Seeders/XProfileFieldSeeder.php:322 | two keys with the same option name are the same key |
| XProfileFieldSeeder.NativeKept | src/Seeders/XProfileFieldSeeder.php:652-654 | the removal invariant keeps every top-level field of a native group and its data |
| XProfileFieldSeeder.DefinitionNamesDistinct | src/Seeders/XProfileFieldSeeder.php:634 | no two field definitions share a name |
| XProfileFieldSeeder.NamedTarget | src/Seeders/XProfileFieldSeeder.php:640-654 | the target of a name is a top-level field of the rows carrying that name and outside the native groups |
| XProfileFieldSeeder.FirstWhereFilter | src/Seeders/XProfileFieldSeeder.php:640-643 | a `DELETE` that keeps every row a lookup matches does not change the row that lookup finds first |
| XProfileFieldSeeder.FilterTwice | src/Seeders/XProfileFieldSeeder.php:602-610 | two successive `DELETE`s keep exactly the rows both conditions keep, in order |
| XProfileFieldSeeder.RemovedStep | src/Seeders/XProfileFieldSeeder.php:601-619 | deleting one eligible field, and its option when it is listed as removed, keeps the removal invariant |
| XProfileFieldSeeder.GroupByIdSubset | src/Seeders/XProfileFieldSeeder.php:646-654 | a group looked up among the remaining groups is the one looked up among the original groups |
| RegistrationController.MaskSensitiveFields | src/REST/RegistrationController.php:463-474 | the loop over the two password keys computes the masked payload |
| RegistrationController.MaskedFacts | src/REST/RegistrationController.php:463-474 | the masked payload has the same keys in the same order; a truthy `senha_login` or `senha` reads '***'; a falsy password and every other entry are unchanged |
| RegistrationController.MaskedIdempotent | src/REST/RegistrationController.php:463-474 | masking twice gives the same payload as masking once |
| RegistrationController.CheckViewPermission | src/REST/RegistrationController.php:446-461 | an anonymous caller is refused; a logged-in one is allowed exactly when asking for their own data or holding `view_fpse_registrations` |
| RegistrationController.FindById | src/REST/RegistrationController.php:423 | the user found has the id, and none is found exactly when no user has it |
| RegistrationController.Controller.constructor | src/REST/RegistrationController.php:156-372 | the controller shares one event recorder with its user service |
| RegistrationController.Controller.HandleRegister | src/REST/RegistrationController.php:156-372 | a 403 leaves the rate counters alone and every later stage counts the request; a rejected request gets its stage's answer, records exactly the validation error that stage records and leaves users and meta unchanged; an accepted one ends as `Registered` says: 500 and no change when the service throws an `\Exception`, a fatal error when it throws an `\Error`, otherwise the service's answer decides the response (400 with its message, or 201), users, meta and next user id become those of the service's path, and the events gain the service's own row, then the two assignment rows or the controller's validation error |
| RegistrationController.Controller.Screen | src/REST/RegistrationController.php:180-284 | the nonce, JSON, profile and state guards either hand over the registration, recording nothing, or give the stage's rejection with its validation error recorded |
| RegistrationController.Controller.Check | src/REST/RegistrationController.php:237-284 | the profile and state guards either hand over the registration or give the stage's rejection with its validation error recorded |
| RegistrationController.Controller.Register | src/REST/RegistrationController.php:286-371 | past the guards: something thrown changes nothing and is answered 500 (`\Exception`) or is fatal (`\Error`); otherwise the response, users, meta, next user id and event rows are exactly those the service's path leads to (`ServedAs`) |
| RegistrationController.Controller.Serve | src/REST/RegistrationController.php:291-317 | the service's answer is `Answer` of its decision; users, meta and next user id are those of the path; a decline appends exactly one validation-error row carrying the service's message after the service's own rows, a success nothing more |
| RegistrationController.Controller.Answered | src/REST/RegistrationController.php:291-371 | once the service has returned, the response is 400 with its message or 201, and the state is the one the service's path and answer lead to, assignment rows after a success, the validation-error row after a decline |
| RegistrationController.Controller.Welcome | src/REST/RegistrationController.php:321-371 | an accepted registration is answered 201 and gains the two assignment rows, and nothing else changes |
| RegistrationController.Controller.ServedIsRegistered | src/REST/RegistrationController.php:286-371 | with nothing thrown, the state the service's answer leads to is the one `handleRegister` promises past its guards |
| RegistrationController.Controller.Assign | src/REST/RegistrationController.php:332-354 | the profile-assigned and state-assigned rows are appended, when the inserts succeed, and nothing else |
| RegistrationController.Controller.HandleGetRegistration | src/REST/RegistrationController.php:418-438 | an unknown user (after `absint`) is answered 404 "Usuário não encontrado"; a known one 200 with that user's data |
| RegistrationController.DisabledSparesRateSlot | src/REST/RegistrationController.php:161-177 | with registration disabled the request is answered 403 before the rate check and records nothing |
| RegistrationController.StageStatus | src/REST/RegistrationController.php:156-284 | each guard answers with its own status: 403, 429, 400 for the nonce, JSON, profile and state guards, and a fatal error for a body that is not an array |
| RegistrationController.ServiceStatus | src/REST/RegistrationController.php:291-371 | past the guards the answer is 500 when the service throws an `\Exception`, a fatal error when it throws an `\Error` (the `catch (\Exception)` does not catch it), 400 with its message when it declines and 201 when it registers, whether or not any event could be recorded |
| RegistrationController.GateOrder | src/REST/RegistrationController.php:156-284 | each guard is reached only when the earlier ones passed: an accepted request had registration enabled, a rate slot, a valid nonce, a known profile and a configured state |

## Left out

- Logging: `error_log` calls and the Logger's file writes. Only the masking and the gating decision are modelled.
- Clocks, `HOUR_IN_SECONDS` and transient expiry. The rate-limit counter never expires in the model, and `now` is a parameter.
- `sanitize_text_field`, `esc_url_raw`, `filter_var`, `strtotime`/`date`, `maybe_unserialize`, `wp_json_encode`, `file_exists` and nonce verification are function parameters. `NonceMiddleware` is not part of this model.
- `strlen` counts bytes but the model counts characters, so the 6-character password check is exact only for ASCII passwords.
- `in_array` and `==` comparisons are modelled as strict equality. Loose comparison of numeric strings is not modelled.
- Event rows: varchar truncation is not modelled. The table's collation is modelled as folding ASCII letter case and ignoring trailing spaces; accent folding and a site configured with another collation are not modelled. `created_at` ties are broken by insertion order: the model sorts by id, which grows with insertion order. Dates are compared as text.
- A failed event insert does not consume an auto-increment id in the model.
- One `insertOk` flag stands for every event insert of a request.
- `RoleCreator.AssignRoleByProfile` does not check that the user exists.
- Renaming an existing `WP_Role`, which `createRolesFromProfiles` attempts, is not persisted by WordPress. The model only reports the role as updated.
- `SettingsPage.InputLines`: an array element that is itself an array makes PHP 8's `trim` throw a `TypeError`; the model turns that fatal error into no line (`TextOf`).
- `MemberTypeSeeder`:
  - The legacy `createOrUpdateMemberType` and `seed` are left out.
  - Everything the post and taxonomy APIs do internally is reduced to a `PostWrite` outcome.
- `UserService`:
  - The BuddyBoss steps inside `createUser`/`updateUser` (member-type assignment, its re-application with `usleep`, xProfile reads after writes, avatars, cache flushes) are not sequenced. `wp_update_user` is modelled as overwriting the user's text fields.
  - `testXProfilePersistence` and the `getUsersBy*` helpers are left out.
  - An exception escaping `createOrUpdate` is modelled as thrown before any change.
- `UserService.FindByLogin`, `FindByEmail`, `Decide`, `DecideOrder`, `UserService.UserService.CreateOrUpdate`: `get_user_by` and `username_exists` are modelled as trimming the value and comparing without ASCII letter case. `sanitize_user`'s removal of tags, accents, percent-octets and entities from a login, accent folding by the collation, and `sanitize_email` on stored e-mails are not modelled.
- FromRequest (`Types.FromRequest`, through `Types.StringToInt`): PHP's `(int)` reads a numeric string with a fraction or an exponent through a float, so `(int)"1e3"` is 1000; the model reads only the leading sign and digits and gives 1. The same cast serves `UserXProfileFields`.
- `UserXProfileFields`: the `round()` success-rate log line is left out.
- `Types.StringToInt`, `Types.FromRequest`: PHP's `(int)` of a digit string beyond the 64-bit range saturates at `PHP_INT_MAX` (or `PHP_INT_MIN`); the model's integers are unbounded and read such a step exactly. Either way it lies outside 1..6, so `Types.ValidateStructure` rejects it just the same.
- `Php.AbsInt`: `absint` works on 64-bit integers, so an id, page or limit beyond `PHP_INT_MAX` saturates first and `abs(PHP_INT_MIN)` becomes a float; the model takes the absolute value of an unbounded integer. This holds wherever it is applied: `Events.EventRecorder.UserEvents`, `ReportRegistry.UserAuditTrail`, `ReportRegistry.GetAllRegistrations`, `RegistrationController.Controller.HandleGetRegistration` and the rate limit.
- Floating point: `Php.Value` has no float. A JSON number with a fraction or an exponent is not modelled, and `total_pages`, which PHP computes with `ceil()` as a float, is modelled as the integer ceiling.
- `MemberTypeSeeder.MemberTypeForProfile`: the 40-character cut counts characters, while PHP's `strlen` and `substr` count bytes, so the cut is exact only for ASCII profile identifiers.
- `XProfileFieldSeeder`:
  - `xprofile_insert_field`'s own table writes are an oracle.
  - A failed option-row insert is ignored, as the source ignores it.
  - The groups and fields tables share one "installed" flag.
- `XProfileFieldSeeder.Tables.Seed`, `XProfileFieldSeeder.Tables.SeedDefinitions`: without `xprofile_insert_field`, the tables after the whole loop are stated only call by call (`TablesAnswered` in `SeedField`), not in closed form; only the results are stated for the whole loop.
- `ReportRegistry`:
  - `GetAllRegistrations` returns `None` for a page size of 0 (PHP's `DivisionByZeroError`), and the data is absent for page 0, whose negative offset makes the query fail.
  - The count and aggregation reports, `getTableName` and `getDatabase` are left out. `validationErrorStats` is modelled only as its total.
- `RegistrationController`:
  - `fromArray` cannot throw in the model, so its 400 branch 'Dados de registro inválidos' is unreachable.
  - A JSON body that decodes to a scalar makes PHP raise a `TypeError`, modelled as `Fatal`. A JSON list or `null` passes through `$body ?? []` (src/REST/RegistrationController.php:207) and is read as an array.
  - An array-valued `estado` (a PHP `TypeError` at the `isset`) is treated as an unknown state.
  - An array-valued `perfil_usuario` is looked up as the text 'Array'.
  - `checkViewPermission` takes the id as a number, which the route pattern guarantees.
  - `handleGetNonce` and `registerRoutes` are left out.
  - An exception from the profile- or state-assigned event inserts cannot happen in the model: a failed insert simply records nothing, and the answer is still 201.
- `RegistrationController.Controller.Register`, `RegistrationController.Controller.HandleRegister`: whatever escapes `createOrUpdate` is modelled as thrown before any change to users, meta or events. An `\Exception` is answered 500 and an `\Error` is fatal, since `catch (\Exception)` does not catch it. The `Error` that the as-written `warn` call raises after `wp_create_user` and `storeUserMeta` (Findings, second row) is not reproduced, because the model uses the corrected `UserXProfileFields.StoreXProfileFields`.
- `StateGroupSeeder`: group avatars (src/Seeders/StateGroupSeeder.php:177-235) and `getAllStateGroups` are left out.
- `ProfileResolver.GetProfileLabel`, `GetProfileCategory`, `GetProfileDescription`, `GetProfileSpecificFields`: their contracts state only the unknown-profile default. For a known profile they return the configured value, or the same default when it is missing.
- `Autoload`: `fpse_get_plugin` and the `require` side effect are left out.
- Outside the core: `StatsController`, `DashboardPage`, the `render*` methods of `SettingsPage`, `CorsHeaders`, `Plugin` and the maintenance script.

## Findings

| source | as written | input that shows it | evidently intended | confidence | as-written member | corrected member |
|---|---|---|---|---|---|---|
| src/Seeders/XProfileFieldSeeder.php:370-382 | `$fieldId` is overwritten with the new id before the `created` test, so the API path reports "created" only when the new id is 0 | no cached or found field; `xprofile_insert_field` returns 7; the new field is reported under `updated` | created exactly when no field id was known before the call | not executed | XProfileFieldSeeder.ApiCreatedCounterexample | XProfileFieldSeeder.Tables.CreateOrUpdateField |
| src/Services/UserService.php:1106 | `storeXProfileFields` calls `$this->logger->warn(...)` (also at 961, 1095, 1163, 1203, 1272), but the Logger defines `warning` and has no `warn` or `__call` (src/Utils/Logger.php:81-116), so PHP raises an `Error` that the controller's `catch (\Exception)` does not catch | xProfile API present, no active member type, `cpf` set to "12345678901" with a known field | log a warning and carry on storing the fields | not executed | UserXProfileFields.NoMemberTypeThrows | UserXProfileFields.StoreXProfileFields |
| src/Seeders/XProfileFieldSeeder.php:615 | the option deleted for a removed field is named after the field's numeric position in `array_column(..., 'name')`, not after its definition key; the name-matching loop does the same at lines 678-680 | removing the field "CPF" deletes `fpse_xprofile_field_0`, while the cached id lives in `fpse_xprofile_field_cpf` | delete the option under the definition key that `createOrUpdateField` cached it under | not executed | XProfileFieldSeeder.RemovedOptionKeyAsWrittenMisses | XProfileFieldSeeder.Tables.RemoveExistingFields |
