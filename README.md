# Suzuran no Ken data admin — a verified model

The repository is the admin back office of a fan database for the game
"鈴蘭の剣": characters, skills, effects, factions, roles, rarities, EX and
personality skills, equipment, tarots and administrators. Each entity kind is
one JSON file holding an array of records. This project models the following
parts of it in Dafny and proves properties about them:

- the generic repository that reads and rewrites those files
  (`shared/src/repository.ts`);
- the entity interfaces and enumerations (`shared/src/models.ts`);
- the request-to-patch conventions of every admin route handler: what an
  absent, empty or repeated form field becomes, the icon ladders, and the
  outcomes 400, 404, 500 and redirect;
- the upload file-name sanitiser and `toPublicPath`;
- the two one-off migration scripts.

Layout, one module per file:

- `base`, `json`, `text`: shared value types.
  - A record is a `map<string, Value>`. A missing key reads as `Undefined`.
  - `Persist` is the `JSON.stringify`/`JSON.parse` round trip the files
    impose: `undefined` properties vanish and `NaN` becomes `null`.
- `store`: the repository's array transformations as functions
  (`AfterCreate`, `AfterUpdate`, `AfterDelete`, `AfterSeed`, `Search`).
- `repository`: the class `JsonFile`. Its field `contents` is the file's
  array and its field `writes` counts the `writeJson` calls. Its methods
  are proved against the `store` functions.
- `models`: the interfaces as schemas, with `Partial`, `Omit` and the label
  enumerations.
- `forms`: the abstract request.
  - A form maps a field name to one string or a list of strings.
  - An upload is a file name plus its disk path.
  - It also holds JavaScript's `parseInt`, truthiness, `x || null` and the
    list normalisation.
- One module per route file; `upload`; `migrate_skill_effects`;
  `migrate_admin_users`.

Handlers that build their input step by step are methods. Each is proved
equal to a function of the form. Handlers that change a file are methods on
a `JsonFile`, proved to leave exactly the `store` function of the old
contents. Handlers that loop (the display-faction loop, the tarot listing,
the migrations) are methods with loop invariants.

## Model

| member | source | states |
|---|---|---|
| Json.Jsonify | shared/src/repository.ts:35-37 | what `JSON.stringify` leaves of a value is a JSON value (no `undefined`, no `NaN`) |
| Json.Persist | shared/src/repository.ts:29-38 | a record read back after writing is JSON, and keeps exactly the properties that were not `undefined` |
| Json.JsonifyKeepsJson | shared/src/repository.ts:29-38 | a JSON value survives the write/read round trip unchanged |
| Json.PersistKeepsJson | shared/src/repository.ts:29-38 | a record read from a file is written back exactly as read |
| Json.PersistIdempotent | shared/src/repository.ts:29-38 | writing a record twice is writing it once |
| Json.PersistAt | shared/src/repository.ts:29-38 | a key survives the round trip iff its value was not `undefined`, and a JSON value under it is kept |
| Text.IndexOf | admin/src/routes/tarots.ts:19-20 | `indexOf`: -1 iff the needle does not occur, otherwise the first position where it occurs |
| Text.ReplaceFirst | admin/src/routes/tarots.ts:20 | string `replace`: the input unchanged when the pattern is absent, else only the first occurrence replaced |
| Text.ReplaceChar | admin/src/routes/characters.ts:107-108 | a global one-character `replace`: same length, each occurrence replaced, every other character kept |
| Text.LowerCase | shared/src/repository.ts:62 | `toLowerCase` character by character (ASCII letters), same length |
| Text.TrimStart | admin/src/routes/admin-users.ts:56 | the suffix left after removing only leading white space |
| Text.TrimEnd | admin/src/routes/admin-users.ts:56 | the prefix left after removing only trailing white space |
| Text.BlankTrimsToEmpty | admin/src/routes/admin-users.ts:56 | a string made only of white space trims to `''` |
| Text.NonBlankTrimsToNonEmpty | admin/src/routes/admin-users.ts:56 | a string with one non-space character does not trim to `''` |
| Text.TrimEmptyIffBlank | admin/src/routes/admin-users.ts:56 | `s.trim() !== ''` holds exactly when `s` has a non-space character |
| Text.Decimal | admin/src/middleware/upload.ts:18 | the decimal rendering of `Date.now()` is a non-empty run of digits |
| Store.FirstIndex | shared/src/repository.ts:79 | `findIndex`: -1 iff no record matches, otherwise a matching position with no match before it |
| Store.Find | shared/src/repository.ts:56-58 | `find`: nothing iff no record matches, otherwise a matching member of the array |
| Store.Filter | shared/src/repository.ts:61-68 | `filter`: no longer than the input, and holds exactly the elements that satisfy the predicate |
| Store.FilterKeepsLength | shared/src/repository.ts:88-89 | the filter keeps the length exactly when every element passes, and then returns the array itself |
| Store.CountZeroIffAbsent | shared/src/repository.ts:350-357 | no record has the value exactly when `findIndex` gives -1 |
| Store.Created | shared/src/repository.ts:72 | `{ id, ...input }` has the input's keys plus `id`, and the input's values; the fresh id is kept only when the input has no `id` |
| Store.AfterCreate | shared/src/repository.ts:70-76 | create appends exactly one record, the persisted created record, at the end, and keeps every earlier record in order |
| Store.CreateThenFind | shared/src/repository.ts:56-76 | with a fresh id and no `id` in the input, `findById` then finds the created record |
| Store.Merge | shared/src/repository.ts:81 | `{ ...old, ...input, id }`: keys of both, id always the argument, input wins over old elsewhere |
| Store.MergeEmpty | shared/src/repository.ts:81 | an empty input gives back the stored record |
| Store.MergeTwice | shared/src/repository.ts:81 | merging the same input twice is merging it once |
| Store.AfterUpdate | shared/src/repository.ts:77-85 | same length; an unknown id changes nothing; only the first record with the id is replaced, by the persisted merge |
| Store.UpdateFrame | shared/src/repository.ts:81-82 | every other position keeps its record, and the replaced record still carries the id |
| Store.PersistMergeTwice | shared/src/repository.ts:81-83 | persisting a merge, then merging and persisting the same input again, changes nothing |
| Store.UpdateTwice | shared/src/repository.ts:77-85 | repeating the same update gives the same array |
| Store.UpdateEmptyKeeps | shared/src/repository.ts:77-85 | an update with an empty input writes back the records as they were read |
| Store.AfterDelete | shared/src/repository.ts:86-92 | the array after delete holds exactly the records without that id |
| Store.DeleteChanged | shared/src/repository.ts:86-92 | the length changes iff some record had the id; otherwise the array is kept; afterwards no record has the id |
| Store.AfterSeed | shared/src/repository.ts:350-357 | the admin users are unchanged when the username exists; otherwise one user with that name and hash is appended |
| Store.SeedCount | shared/src/repository.ts:350-357 | after seeding at least one user has the name, and a user is added only when there was none |
| Store.SeedTwice | shared/src/repository.ts:350-357 | seeding twice, whatever the second id and hash, is seeding once |
| Store.SearchIsFilter | shared/src/repository.ts:59-69 | on well-formed characters, search is the filter by the conjunction of the non-empty criteria |
| Store.SearchEmptyQuery | shared/src/repository.ts:59-69 | the empty query returns the whole list, in order |
| Repository.JsonFile.Missing | shared/src/repository.ts:22-27 | a file that does not exist reads as the empty array |
| Repository.JsonFile.List | shared/src/repository.ts:53-55 | `list()` returns the whole array |
| Repository.JsonFile.FindById | shared/src/repository.ts:56-58 | found iff some record has the id, and then it is the first such record |
| Repository.JsonFile.FindByUsername | shared/src/repository.ts:324 | found iff some user has the username, and then it is the first such user |
| Repository.JsonFile.Search | shared/src/repository.ts:59-69 | on well-formed characters, returns exactly the characters meeting every non-empty criterion; the empty query returns the whole array |
| Repository.JsonFile.Create | shared/src/repository.ts:70-76 | returns `{ id, ...input }`, appends its JSON form at the end, and writes once |
| Repository.JsonFile.Update | shared/src/repository.ts:77-85 | an unknown id returns nothing and writes nothing; otherwise it returns the merge, replaces the first match and writes once |
| Repository.JsonFile.Delete | shared/src/repository.ts:86-92 | returns true iff some record had the id, drops every such record, and writes only then |
| Repository.EnsureDefaultAdminUser | shared/src/repository.ts:350-357 | adds the user, with one write, only when no user has that username |
| Models.ParseWeaponType | shared/src/models.ts:1 | a label is a weapon type iff it is one of 剣/槍/斧/杖/弓, and it parses to the type with that label |
| Models.WeaponTypeLabelsDistinct | shared/src/models.ts:1 | each weapon type has its own label, and parsing the label gives the type back |
| Models.ParseSkillType | shared/src/models.ts:14 | a label is a skill type iff it is one of the six labels |
| Models.ParseSkillEffectCategory | shared/src/models.ts:16 | a label is an effect category iff it is one of the seven labels |
| Models.EnumerationSizes | shared/src/models.ts:1-16 | five weapon types, three targets, six skill types, seven effect categories, each label in its set |
| Models.EquipmentTarotLabelSizes | shared/src/models.ts:213-245 | two equipment categories, five equipment weapon types, five tarot acquisition methods |
| Models.Partial | shared/src/models.ts:31 | `Partial<T>` declares the same properties as `T` |
| Models.EmptyInputIsPartial | shared/src/models.ts:31-270 | the empty object is an update input of every interface |
| Models.PartOfInputIsPartial | shared/src/models.ts:31-270 | any part of a create input is an update input |
| Models.CreatedConforms | shared/src/models.ts:192 | a create input of `Omit<T, "id">` plus a string id is a `T` |
| Models.StoredConforms | shared/src/repository.ts:70-76 | what `create` stores for a JSON create input is a well-typed entity |
| Models.MergeConforms | shared/src/repository.ts:81 | merging a well-typed partial update into a well-typed entity keeps it well typed |
| Models.UndefinedPatchBreaksEntity | shared/src/repository.ts:81 | a patch that sets a required property to `undefined` breaks the entity, before and after the round trip |
| Forms.Apply | admin/src/routes/rarities.ts:60-90 | setting `input.k` from a branch decision: unchanged, set, or the throw |
| Forms.IconLadder | admin/src/routes/personality-skills.ts:77-89 | the upload's name, else `''` on reset, else the echoed current icon, else `''` |
| Forms.IconLadderEcho | admin/src/routes/personality-skills.ts:83-85 | the echoed icon is kept iff there is neither an upload nor the reset flag |
| Forms.ChooseIcon | admin/src/routes/ex-skills.ts:85-97 | the `if`/`else if` assignments compute the icon ladder |
| Forms.WithUploadedIcon | admin/src/routes/personality-skills.ts:38-40 | the create input of the personality- and EX-skill routes (also ex-skills.ts:44-46) adds the bare file name as icon only when a file came, and changes no other key |
| Forms.BuildWithLadderIcon | admin/src/routes/personality-skills.ts:66-89 | the literal, then the ladder's assignments, compute the update input of both routes (also ex-skills.ts:76-97) |
| Forms.FieldValue | admin/src/routes/roles.ts:24-28 | `req.body[k]` is `undefined` for a missing field, otherwise a string or an array |
| Forms.ToList | admin/src/routes/skills.ts:42-44 | an array is kept, a truthy single value is wrapped, anything else is `[]` |
| Forms.Wrap | admin/src/routes/skills.ts:169-171 | an array is kept and anything else is wrapped |
| Forms.FieldList | admin/src/routes/personality-skills.ts:30 | the list of a field holds exactly the submitted strings: `[]` when missing or `''` |
| Forms.FieldIsJson | admin/src/routes/roles.ts:24-35 | a sent field and its list are JSON values |
| Forms.OrNull | admin/src/routes/roles.ts:31-35 | `x \|\| null`: a truthy value is kept, anything else is `null` |
| Forms.OrEmpty | admin/src/routes/personality-skills.ts:31-35 | `x \|\| ''`: a truthy value is kept, anything else is `''` |
| Forms.NamedInput | admin/src/routes/roles.ts:24-35 | `{ name }` plus, for each sent optional field, its value or `null` |
| Forms.SetOrNull | admin/src/routes/roles.ts:31 | one `if (k !== undefined) input.k = k \|\| null` |
| Forms.NamedInputMerge | admin/src/routes/roles.ts:62-68 | merged into a stored record, a missing field keeps the stored value, `''` clears it to `null`, and a missing name drops `name` |
| Forms.ParseInt | admin/src/routes/skills.ts:39-40 | `parseInt` gives a number or `NaN` |
| Forms.ParseIntValue | admin/src/routes/skills.ts:30 | `parseInt` of a form value gives a number or `NaN` |
| Forms.ParseDecimal | admin/src/routes/skills.ts:39-40 | `parseInt` reads back the decimal rendering of every natural number |
| Forms.ParseNoDigits | admin/src/routes/skills.ts:39-40 | a string that does not start with a digit reads as `NaN` |
| Upload.Sanitize | admin/src/middleware/upload.ts:17 | same length; every character outside `[a-zA-Z0-9-_]` becomes `_`, others stay in place |
| Upload.SanitizeIdempotent | admin/src/middleware/upload.ts:17 | a sanitised name holds only allowed characters, and sanitising it again changes nothing |
| Upload.SanitizeKeepsAllowed | admin/src/middleware/upload.ts:17 | a name of allowed characters is kept |
| Upload.LastDot | admin/src/middleware/upload.ts:16 | the position of the last `.`, or -1 |
| Upload.Ext | admin/src/middleware/upload.ts:16 | the extension is `''` or a suffix of the name starting with `.` |
| Upload.Base | admin/src/middleware/upload.ts:17 | the base name followed by the extension is the original name |
| Upload.ExtShape | admin/src/middleware/upload.ts:16-17 | an extension has exactly one dot, its first character, and a name with an extension has a non-empty base |
| Upload.StoredNameShape | admin/src/middleware/upload.ts:15-20 | the stored name is allowed characters up to the extension, then the extension unsanitised; its length is the timestamp's plus one plus the original's |
| Upload.ParseDecimalPrefix | admin/src/middleware/upload.ts:18 | `parseInt` stops at the first non-digit after a decimal number |
| Upload.StoredNameTimestamp | admin/src/middleware/upload.ts:18 | `parseInt` of a stored name reads back the time it was stored at |
| Upload.PublicPathRoundTrip | admin/src/middleware/upload.ts:25-27 | removing `/uploads/` from a public path gives the file name back |
| SkillEffects.BuildInput | admin/src/routes/skill-effects.ts:22-28 | the conditional assignments give `{ name }` plus category/description as `value \|\| null` when sent |
| SkillEffects.EmptyCategoryBreaksSchema | admin/src/routes/skill-effects.ts:27 | an empty category is stored as `null`, which a SkillEffect does not allow |
| SkillEffects.FullFormConforms | admin/src/routes/skill-effects.ts:18-36 | a complete form with a known category is stored as a well-typed SkillEffect |
| SkillEffects.Create | admin/src/routes/skill-effects.ts:18-36 | appends the input and redirects |
| SkillEffects.Update | admin/src/routes/skill-effects.ts:45-68 | merges the input; 404 when no effect has the id |
| SkillEffects.Delete | admin/src/routes/skill-effects.ts:70-73 | deletes and redirects whatever the result |
| Factions.BuildInput | admin/src/routes/factions.ts:26-31 | `{ name }` plus `icon \|\| null` when sent |
| Factions.IconIsNotAFactionField | admin/src/routes/factions.ts:31 | the input is a FactionCreateInput, but the stored record carries `icon`, which a Faction does not declare |
| Factions.Create | admin/src/routes/factions.ts:22-39 | appends the input and redirects |
| Factions.Update | admin/src/routes/factions.ts:48-70 | merges the input; 404 when no faction has the id |
| Factions.Delete | admin/src/routes/factions.ts:72-75 | deletes and redirects whatever the result |
| Roles.BuildInput | admin/src/routes/roles.ts:24-35 | `{ name }` plus each of the five fields as `value \|\| null` when sent |
| Roles.MovementPowerStaysText | admin/src/routes/roles.ts:31 | a movement power is stored as the submitted string, so the Role is not well typed |
| Roles.Create | admin/src/routes/roles.ts:22-43 | appends the input and redirects |
| Roles.Update | admin/src/routes/roles.ts:52-78 | merges the same input; 404 when no role has the id |
| Roles.Delete | admin/src/routes/roles.ts:80-83 | deletes and redirects whatever the result |
| AdminUsers.CreateInput | admin/src/routes/admin-users.ts:23-32 | `{ username, passwordHash }` with the hash of the password and no plaintext; hashing fails iff the password is not one string |
| AdminUsers.BuildUpdateInput | admin/src/routes/admin-users.ts:53-59 | the literal and the conditional assignment compute the update input |
| AdminUsers.UpdateInputShape | admin/src/routes/admin-users.ts:53-59 | always the username; a hash only for a password with a non-blank character; a throw only for a repeated password |
| AdminUsers.BlankPasswordKeepsHash | admin/src/routes/admin-users.ts:56-61 | a blank or missing password leaves the stored hash through the merge |
| AdminUsers.NewPasswordReplacesHash | admin/src/routes/admin-users.ts:56-61 | a non-blank password replaces the stored hash by its hash |
| AdminUsers.CreatedConforms | admin/src/routes/admin-users.ts:21-40 | a single username and password are stored as a well-typed AdminUser with no `password` |
| AdminUsers.Create | admin/src/routes/admin-users.ts:21-40 | appends the input and redirects; 500 and no change when hashing throws |
| AdminUsers.Update | admin/src/routes/admin-users.ts:50-67 | merges the input and redirects even for an unknown id; 500 and no change when hashing throws |
| AdminUsers.Delete | admin/src/routes/admin-users.ts:70-73 | deletes and redirects whatever the result |
| Rarities.CreateInput | admin/src/routes/rarities.ts:24-30 | `value` as `value \|\| null` when sent, not parsed; `image` is the upload's public path, and only with an upload |
| Rarities.BuildCreateInput | admin/src/routes/rarities.ts:24-30 | the conditional assignments compute the create input |
| Rarities.BuildUpdateInput | admin/src/routes/rarities.ts:52-90 | the conditional assignments and the image ladder compute the update input |
| Rarities.PlainEditKeepsImage | admin/src/routes/rarities.ts:60-90 | no upload, no reset and no echoed image: `image` is omitted, so the stored one is kept |
| Rarities.UploadReplacesImage | admin/src/routes/rarities.ts:60-68 | an upload replaces the stored image by its public path |
| Rarities.UpdateThrows | admin/src/routes/rarities.ts:60-90 | the ladder throws exactly when an old file is to be removed and `currentIcon` was sent twice |
| Rarities.ValueStaysText | admin/src/routes/rarities.ts:29 | a value is stored as the submitted string, so the Rarity is not well typed |
| Rarities.Create | admin/src/routes/rarities.ts:20-38 | appends the input and redirects |
| Rarities.Update | admin/src/routes/rarities.ts:47-102 | 500 and no change when the ladder throws; else merges the input, with 404 when no rarity has the id |
| Rarities.Delete | admin/src/routes/rarities.ts:104-107 | deletes and redirects whatever the result |
| PersonalitySkills.Literal | admin/src/routes/personality-skills.ts:28-36 | `name`, `effectIds` as a list, and the five star descriptions defaulting to `''` |
| PersonalitySkills.UpdateOverwritesIcon | admin/src/routes/personality-skills.ts:77-89 | the update always sets the icon from the ladder, so without upload, reset or echo the stored icon becomes `''` |
| PersonalitySkills.MissingStarClears | admin/src/routes/personality-skills.ts:69-73 | a missing star description is stored as `''` whatever was stored |
| PersonalitySkills.LiteralConforms | admin/src/routes/personality-skills.ts:28-36 | single-valued fields give a well-typed JSON create input |
| PersonalitySkills.InputConforms | admin/src/routes/personality-skills.ts:28-40 | such a form gives a well-typed create input, with or without a file |
| PersonalitySkills.CreatedConforms | admin/src/routes/personality-skills.ts:26-48 | such a form is stored as a well-typed PersonalitySkill |
| PersonalitySkills.Create | admin/src/routes/personality-skills.ts:26-48 | appends the input and redirects |
| PersonalitySkills.Update | admin/src/routes/personality-skills.ts:64-141 | both PUT and POST merge the same input; 404 when no skill has the id |
| PersonalitySkills.Delete | admin/src/routes/personality-skills.ts:144-156 | deletes; 404 when nothing was deleted |
| ExSkills.Literal | admin/src/routes/ex-skills.ts:35-41 | `name`, `effectIds` as a list, and the three level descriptions defaulting to `''` |
| ExSkills.NoEffectIdsGivesEmpty | admin/src/routes/ex-skills.ts:37 | with no effect selected the list is `[]`, whether or not `noEffectIds` was sent |
| ExSkills.UpdateOverwritesIcon | admin/src/routes/ex-skills.ts:85-97 | the update always sets the icon from the ladder |
| ExSkills.LiteralConforms | admin/src/routes/ex-skills.ts:35-41 | single-valued fields give a well-typed JSON create input |
| ExSkills.InputConforms | admin/src/routes/ex-skills.ts:35-46 | such a form gives a well-typed create input, with or without a file |
| ExSkills.CreatedConforms | admin/src/routes/ex-skills.ts:32-54 | such a form is stored as a well-typed ExSkill |
| ExSkills.Create | admin/src/routes/ex-skills.ts:32-54 | appends the input and redirects |
| ExSkills.Update | admin/src/routes/ex-skills.ts:73-140 | merges the input and redirects, even for an unknown id |
| ExSkills.Delete | admin/src/routes/ex-skills.ts:143-154 | deletes; 404 when nothing was deleted |
| Equipment.EmptyToNull | admin/src/routes/equipment.ts:49 | `''` becomes `null`, and any other value is kept |
| Equipment.FieldsInput | admin/src/routes/equipment.ts:44-53 | `{ name }` plus each sent optional field, `''` as `null` |
| Equipment.BuildFields | admin/src/routes/equipment.ts:49-53 | the five conditional assignments compute the optional fields |
| Equipment.AcquisitionMethodCases | admin/src/routes/equipment.ts:56-64 | an empty list or `''` is `null`, a non-empty list is joined with `, `, a string is kept |
| Equipment.Input | admin/src/routes/equipment.ts:44-64 | the input has `name` and exactly the sent optional fields |
| Equipment.BuildInput | admin/src/routes/equipment.ts:44-64 | the assignments compute the input |
| Equipment.OptionalFieldMerge | admin/src/routes/equipment.ts:107-116 | a missing field keeps the stored value, `''` stores `null`, a string is stored, and the name is always overwritten |
| Equipment.CreateInput | admin/src/routes/equipment.ts:67-71 | the icon is the upload's public path, or `null` without one |
| Equipment.BuildCreateInput | admin/src/routes/equipment.ts:44-71 | the assignments compute the create input |
| Equipment.BuildUpdateInput | admin/src/routes/equipment.ts:107-164 | the assignments and icon branches compute the update input |
| Equipment.ChooseIcon | admin/src/routes/equipment.ts:130-164 | the branches compute the icon: `null` on the clear flag, the upload's path, the non-blank stored icon, else `null`; they throw on a truthy non-string stored icon |
| Equipment.UpdateKeepsIcon | admin/src/routes/equipment.ts:156-164 | without clear flag or upload, a non-blank stored icon is kept and a blank one becomes `null` |
| Equipment.UpdateSetsIcon | admin/src/routes/equipment.ts:130-164 | every update input carries an icon; the branches throw iff the stored icon is truthy and not a string |
| Equipment.Create | admin/src/routes/equipment.ts:40-79 | appends the input and redirects |
| Equipment.Update | admin/src/routes/equipment.ts:98-176 | 400 without an id, 500 when the branches throw, 404 when not found, else merge and redirect |
| Equipment.Delete | admin/src/routes/equipment.ts:179-205 | 400 without an id, 500 when the stored icon is not a string, 404 when nothing was deleted |
| Tarots.LegacyFixShape | admin/src/routes/tarots.ts:19-20 | the correction rewrites only the first `/uploads/tarot-` to `/uploads/`, six characters shorter |
| Tarots.LegacyFixNotIdempotent | admin/src/routes/tarots.ts:19-20 | a doubled prefix is only half corrected, so the next listing corrects it again |
| Tarots.FixFileLength | admin/src/routes/tarots.ts:18-25 | the corrections keep the number of tarots |
| Tarots.FixFileNoLegacy | admin/src/routes/tarots.ts:18-25 | with no legacy icon the listing changes nothing |
| Tarots.FixStoresIcon | admin/src/routes/tarots.ts:23 | one correction stores the icon on the tarot with that id and leaves the others |
| Tarots.List | admin/src/routes/tarots.ts:13-31 | the file after the loop is the corrections applied in order; 500 when an icon makes the loop throw; else the page shows each tarot corrected |
| Tarots.Edit | admin/src/routes/tarots.ts:85-101 | 404 for an unknown id; else the shown tarot is corrected and the correction stored |
| Tarots.Common | admin/src/routes/tarots.ts:60-70 | the three text fields default to `''` and the acquisition methods become a list |
| Tarots.CreateInput | admin/src/routes/tarots.ts:60-70 | the icon is `/uploads/` plus the file name, or `''` without a file |
| Tarots.CreateInputConforms | admin/src/routes/tarots.ts:60-70 | single-valued fields with known methods give a well-typed TarotCreateInput |
| Tarots.BuildUpdateInput | admin/src/routes/tarots.ts:106-154 | the literal and the icon branches compute the update input |
| Tarots.UpdateIcon | admin/src/routes/tarots.ts:118-154 | `''` on the clear flag, the upload's path on upload, otherwise the stored icon is kept |
| Tarots.MissingTextClears | admin/src/routes/tarots.ts:109-111 | a missing text field clears the stored text to `''` |
| Tarots.Create | admin/src/routes/tarots.ts:40-82 | appends the input and redirects |
| Tarots.Update | admin/src/routes/tarots.ts:104-165 | 500 and no change when a clear or upload meets a truthy non-string stored icon; else merges the input, with 404 when no tarot has the id |
| Tarots.Delete | admin/src/routes/tarots.ts:168-188 | 404 and no change for an unknown id, 500 and no change for a truthy non-string stored icon, else delete and redirect |
| Skills.ParsedOrNull | admin/src/routes/skills.ts:30 | a falsy value is `null`, and a truthy one is parsed |
| Skills.SetOnCreate | admin/src/routes/skills.ts:30 | one create assignment: a range field not sent as `''` is set, parsed or `null` |
| Skills.BuildCreateRange | admin/src/routes/skills.ts:29-35 | the six assignments compute the create range |
| Skills.CreateRangeCases | admin/src/routes/skills.ts:29-35 | a range field sent as `''` is omitted, a missing one is `null`, any other is parsed |
| Skills.OrZero | admin/src/routes/skills.ts:39-40 | `x \|\| 0`: a truthy value is kept, anything else is `0` |
| Skills.BuildCreateInput | admin/src/routes/skills.ts:29-56 | the range, the literal and the conditional icon and range image compute the create input |
| Skills.CreateInputKeys | admin/src/routes/skills.ts:37-51 | the create input holds exactly the literal's eight properties plus `icon` when an icon was uploaded, and never `skillCategory` |
| Skills.CreateCost | admin/src/routes/skills.ts:39-40 | a decimal cost or ct is read back; a missing or unparsable one is `0` |
| Skills.CreateSkillTypeDefault | admin/src/routes/skills.ts:43 | a missing or empty skill type becomes アクティブ, a declared skill type |
| Skills.SetOnUpdate | admin/src/routes/skills.ts:155 | one update assignment: a sent range field is set, `''` as `null` |
| Skills.BuildUpdateRange | admin/src/routes/skills.ts:154-160 | the six assignments compute the update range |
| Skills.Range | admin/src/routes/skills.ts:154-161 | the corrected range has the same range fields as the range the code builds |
| Skills.BuildUpdateInput | admin/src/routes/skills.ts:118-173 | the range-image branches and the spreads compute the update input as written, with `range.image` only on upload or clear |
| Skills.RangeImage | admin/src/routes/skills.ts:118-161 | the range image is `null` on its clear flag, the upload's path on upload, otherwise the stored one |
| Skills.RangeReplacedWholesale | admin/src/routes/skills.ts:154-172 | the update always sends a range, so range fields missing from the request are dropped from the stored range |
| Skills.RangeImageLostAsWritten | admin/src/routes/skills.ts:154-172 | as written, an edit with no range-image upload and no clear flag drops the stored range image |
| Skills.RangeImageKept | admin/src/routes/skills.ts:118-172 | corrected, such an edit keeps the stored range image, which changes only on upload or clear |
| Skills.UpdateIcon | admin/src/routes/skills.ts:87-165 | the icon is `null` on its clear flag, the upload's path on upload, otherwise the stored one |
| Skills.UpdateCost | admin/src/routes/skills.ts:150-167 | `''` stores `null`, a decimal is read back, a missing value keeps the stored one |
| Skills.UpdateName | admin/src/routes/skills.ts:164 | an empty or missing name keeps the stored name |
| Skills.Create | admin/src/routes/skills.ts:20-64 | appends the input and redirects |
| Skills.Update | admin/src/routes/skills.ts:73-177 | 400 without an id, 404 and no change for an unknown skill, 500 when removing an old file throws, else merge the input as written and redirect |
| Skills.Delete | admin/src/routes/skills.ts:179-254 | 400 without an id, 404 for an unknown skill, 500 when removing its files throws, else delete and redirect |
| Characters.PriorityPick | admin/src/routes/characters.ts:30-41 | a pick is a listed faction the character holds, named in the priority list |
| Characters.FirstHeld | admin/src/routes/characters.ts:44-49 | nothing iff no listed faction is held; otherwise the first held faction in list order |
| Characters.DisplayFaction | admin/src/routes/characters.ts:27-50 | the loop with `break` and the fallback compute the display faction |
| Characters.DisplayFactionHeld | admin/src/routes/characters.ts:27-50 | the faction shown is a listed faction the character holds |
| Characters.DisplayFactionNone | admin/src/routes/characters.ts:27-50 | no faction is shown exactly when the character has none or holds none of the list |
| Characters.PriorityPickWins | admin/src/routes/characters.ts:30-41 | a held priority faction makes the loop pick one of equal or higher priority |
| Characters.PriorityFactionShown | admin/src/routes/characters.ts:30-50 | a held priority faction is shown ahead of lower priorities and any other faction |
| Characters.WithDetailsShape | admin/src/routes/characters.ts:52-56 | a row keeps the character's other properties; its rarity is `undefined` exactly when no rarity has the id, and its faction `null` exactly when none is shown |
| Characters.Index | admin/src/routes/characters.ts:18-60 | one row per character of the file, in order |
| Characters.Detail | admin/src/routes/characters.ts:26-56 | the `map` callback computes a row with its rarity and display faction |
| Characters.OfCategory | admin/src/routes/characters.ts:10-16 | a group holds exactly the skills whose `skillCategory` is its label |
| Characters.OfCategoryNone | admin/src/routes/characters.ts:10-16 | a list with no skill of the category gives an empty group |
| Characters.CategorizeExact | admin/src/routes/characters.ts:10-16 | each skill is in the group of its category and in no other |
| Characters.SkillsAreUncategorized | admin/src/routes/characters.ts:10-16 | a well-typed Skill declares no `skillCategory`, so all three groups are empty |
| Characters.CreatedSkillUncategorized | admin/src/routes/skills.ts:37-46 | a skill created by the skills handler has no `skillCategory` |
| Characters.BuildNode | admin/src/routes/characters.ts:79-86 | filling the node computes `buildNode` |
| Characters.NodeShape | admin/src/routes/characters.ts:79-86 | a node keeps exactly the truthy sides, and there is none when both are empty |
| Characters.BuildSkillTree | admin/src/routes/characters.ts:88-96 | the six calls and the filter compute the skill tree |
| Characters.SkillTreeExact | admin/src/routes/characters.ts:88-96 | the tree holds exactly the ranks RK1 to RK11 whose node is defined, each as that node |
| Characters.NodeFits | shared/src/models.ts:168 | with single-valued fields a node is a `CharacterSkillTreeNode` |
| Characters.SkillTreeFits | shared/src/models.ts:169-176 | with single-valued fields the tree is a `CharacterSkillTree` |
| Characters.BackslashesReplaced | admin/src/routes/characters.ts:107-108 | a stored path has no backslash and keeps every other character; converting again changes nothing |
| Characters.CreateInputPlain | admin/src/routes/characters.ts:98-103 | the create input always carries name, rarityId, roleId, weaponType and `factionIds` as a list |
| Characters.CreateInputOptional | admin/src/routes/characters.ts:104-108 | personalitySkillId, skillTree, exSkillIds and the appearances are present only when non-empty |
| Characters.UpdateInputTruthy | admin/src/routes/characters.ts:153-164 | every form-derived value of the update input is truthy |
| Characters.BlankFieldKeeps | admin/src/routes/characters.ts:153-164 | merged into a stored character, a blank or missing field keeps the stored property |
| Characters.UploadStoresPath | admin/src/routes/characters.ts:107-162 | an uploaded appearance is stored under its path with forward slashes, on create and on update |
| Characters.Create | admin/src/routes/characters.ts:70-113 | appends the input and redirects |
| Characters.Edit | admin/src/routes/characters.ts:115-123 | 404 for an unknown character, else the page with that character |
| Characters.Update | admin/src/routes/characters.ts:125-171 | 400 and no change without an id, else merge and redirect, even for an unknown id |
| Characters.Delete | admin/src/routes/characters.ts:173-176 | deletes and redirects whatever the result |
| MigrateSkillEffects.Backfilled | admin/src/scripts/migrate-skill-effects.js:46-50 | an effect with a falsy category gets その他, every other property is kept, and an effect with a category is untouched |
| MigrateSkillEffects.BackfillAll | admin/src/scripts/migrate-skill-effects.js:45-51 | same length and order, each effect backfilled |
| MigrateSkillEffects.Backfill | admin/src/scripts/migrate-skill-effects.js:43-51 | the loop leaves the array backfilled, and sets `updated` iff some effect had a falsy category |
| MigrateSkillEffects.NothingToBackfill | admin/src/scripts/migrate-skill-effects.js:45-51 | a list where every effect has a category is left as it is |
| MigrateSkillEffects.BackfillIdempotent | admin/src/scripts/migrate-skill-effects.js:46-47 | after one run every effect has a category, so a second run changes nothing |
| MigrateSkillEffects.Run | admin/src/scripts/migrate-skill-effects.js:33-59 | the file is backfilled and written once iff some effect changed; an empty file is not written |
| MigrateAdminUsers.MigratedShape | admin/src/scripts/migrate-admin-users.js:48-58 | a user with a string password and no hash gains `passwordHash` = hash(password) and loses `password`; any other user is untouched |
| MigrateAdminUsers.MigrateAll | admin/src/scripts/migrate-admin-users.js:46-59 | same length and order, each user migrated |
| MigrateAdminUsers.Migrate | admin/src/scripts/migrate-admin-users.js:44-59 | the loop leaves the array migrated, and sets `updated` iff some user was hashed |
| MigrateAdminUsers.NothingToMigrate | admin/src/scripts/migrate-admin-users.js:46-59 | a list with no user to migrate is left as it is |
| MigrateAdminUsers.MigrateIdempotent | admin/src/scripts/migrate-admin-users.js:48-52 | with a hash that is never empty, a second run changes nothing |
| MigrateAdminUsers.Run | admin/src/scripts/migrate-admin-users.js:34-67 | the file is migrated and written once iff some user was hashed; an empty file is not written |

## Left out

- File I/O: `existsSync`, `mkdirSync`, `readFileSync` and `writeFileSync` are not modelled. A file is the `contents` field of a `JsonFile`. Only the JSON round trip is kept, as `Persist`. JSON text syntax is not modelled.
- `generateId` uses `Math.random` and `Date.now`. The id is a parameter of every create. Lemmas such as `Store.CreateThenFind` state what follows when it is fresh.
- `bcrypt.hash` is the parameter `hash`. A password that is not a single string is taken to make it throw. Salt, timing and `bcrypt.compare` are not modelled.
- `Date.now()` in the upload file name is the parameter `now`.
- Express plumbing is not modelled: routing, sessions, authentication, `res.render` and the page data of the list/new/edit pages. The characters and tarots edit pages are the exception, because they read or change the file.
  - A page is the outcome `Page`, and status codes are the `Response` constructors.
  - The render-only handlers (`GET /`, `/new` and `/:id/edit` of the other routes, and the equipment list that joins rarities) have no member.
- Multer is not modelled, and an upload is an `UploadedFile`. The routes that use `admin/src/middleware/upload.ts` (characters, equipment, EX skills, rarities, skills, tarots) name stored files by its storage callback, `Upload.StoredName`. The personality-skills route builds its own `multer({ dest })`, whose random file names are not modelled. The factions and roles routes define such an uploader but never use it. File size limits and multipart parsing are not modelled. A handler reached without multipart data (`req.files` undefined) is not modelled.
- `fs.existsSync`/`fs.unlinkSync` of old pictures are not modelled. Only the throw that `.replace` or `path.join` raises on a non-string picture, and so whether a 500 results, is kept.
- A `try`/`catch` 500 that only a failing disk write could trigger is not modelled.
- Equipment and tarot repositories are not part of this model. `EquipmentRepository`, `TarotRepository` and `findAllWithRarity` are imported but not defined in `shared/src/repository.ts`. They are taken to follow the same whole-file pattern. The rarity join of `findAllWithRarity` and the `createdAt`/`updatedAt` stamps are not modelled.
- `Text.LowerCase` folds only ASCII letters. Unicode case mapping is not modelled.
- `Forms.ParseInt` models decimal and `0x` hexadecimal digits only. Numbers too large for a double are not rounded.
- String length is the number of `char`s. UTF-16 surrogate pairs are not modelled.
- Skills.Update: the thrown error in the async handler reaches no `catch` and the client would see no answer. It is modelled as `ServerError`.
- Characters.DisplayFaction: a string `factionIds` is searched with string `includes`. A non-string faction id is then coerced to a string, and that coercion is taken to find nothing.
- Repository.JsonFile.Search: the result is stated only when every character has a string name and an array `factionIds`, and for the empty query. `Store.Search` also models the throw (`None`) of `toLowerCase` on a non-string name and of `includes` on other `factionIds`, but no lemma characterises that case. The front-end caller is not part of this model.
- Tarots.List requires every stored tarot to carry a string id, as `create` gives it. A tarot without one would make the stored correction target an `undefined` id.
- Concurrency between requests is not modelled (whole-file overwrites, last writer wins).
- The auth routes, both `server.ts` files, the front-end routes and `admin/public/js/image-resizer.js` (browser UI) are not part of this model.
- The migrations keep their `console` logging out of the model. A file that does not hold an array is not modelled.

## Findings

| source | as written | input that shows it | evidently intended | confidence | as-written member | corrected member |
|---|---|---|---|---|---|---|
| admin/src/routes/skills.ts:154-172 | the update builds `range` afresh and always spreads it into `updateData`; `range.image` is set only on upload or clear | a stored skill whose `range.image` is `/uploads/r.png`, edited with no `rangeImage` upload and no `rangeImageClear` | the edit keeps the stored range image, as it keeps the stored icon | high (not executed) | Skills.RangeImageLostAsWritten | Skills.RangeImageKept |

The handler `Skills.Update` and its builder `Skills.BuildUpdateInput` merge
the input as the code builds it (`Skills.UpdateInputAsWritten`), so the model
of the handler has the defect. The corrected input, `Skills.UpdateInput`,
keeps the stored range image; `Skills.RangeImageKept` proves that about it.
