# Employee management system — a verified model of its core

The application keeps an ordered collection of employee records in a store. The
store is mirrored to durable storage on every change. It also holds a fixed
catalog of five departments. The pages read the collection:

- the dashboard, the reports page, the departments page and the
  experience-levels page compute counts, rounded averages and percentages;
- the employee list filters by a case-insensitive search, a department and a
  level;
- the add-employee form parses a comma-separated skills field and appends a
  record;
- the employee card toggles a record's status or deletes it.

A route guard and the side navigation decide who sees which page. The landing
page seeds three demo accounts into an empty user list.

The model has one Dafny module per source file:

| module | source file |
|---|---|
| `EmployeeTypes` | `src/types/Employee.ts` |
| `EmployeeStore` | `src/contexts/EmployeeContext.tsx` |
| `Dashboard` | `src/components/dashboard/Dashboard.tsx` |
| `EmployeeList` | `src/components/employees/EmployeeList.tsx` |
| `EmployeeCard` | `src/components/employees/EmployeeCard.tsx` |
| `AddEmployee` and `FormNumbers` | `src/components/employees/AddEmployee.tsx` |
| `Reports` | `src/pages/Reports.tsx` |
| `Departments` | `src/pages/Departments.tsx` |
| `ExperienceLevels` | `src/pages/ExperienceLevels.tsx` |
| `ProtectedRoute` | `src/components/ProtectedRoute.tsx` |
| `Sidebar` | `src/components/layout/Sidebar.tsx` |
| `DemoAccounts` | `src/pages/Index.tsx` |

Helper modules hold the shared pieces:

- `Options`: JavaScript's absent key or `undefined`.
- `Seqs`: `filter`, `map`, a numeric `reduce`, and `[...new Set(xs)]`.
- `Text`: ASCII `toLowerCase`, `includes`, `trim`, and `split(',')`.
- `Rounding`: `Math.round` of a quotient.
- `Aggregates`: the counts and sums several pages share.
- `Session`: the signed-in user's public fields.

The store is a class. Its `employees` field is a `seq<Employee>` that each
operation reassigns. A ghost field `stored` stands for the durable copy, and the
`Valid()` invariant keeps it equal to `employees`. Each operation's new state is
a pure function of the old one (`Appended`, `Updated`, `Deleted`), and the lemmas
prove what those functions promise. The pages are pure functions of the current
collection.

`Math.round(a / b)` on non-negative numbers is modelled exactly. The result is
the integer `r` with `b*(2r) <= 2a + b < b*(2r + 2)`, so halves round up as in
JavaScript.

The code and the written design disagree in three places. The model follows
the code each time:

- The design calls skills an unordered set. The code keeps an array in input
  order, possibly with repeats, so the model does too.
- The design calls ids unique. Nothing in the code enforces that.
  `AddWithTakenId` shows what happens when an id is reused.
- The design describes numeric salary and experience fields. The form stores
  them as text; see "Findings".

## Model

| member | source | states |
|---|---|---|
| Seqs.Filter | src/contexts/EmployeeContext.tsx:108 | `filter` keeps exactly the elements satisfying the predicate, each as often as before, in the original order |
| Seqs.Dedup | src/components/employees/EmployeeList.tsx:24 | `[...new Set(xs)]` lists every distinct element exactly once, in order of first occurrence |
| Text.Lower | src/components/employees/EmployeeList.tsx:15-17 | lower-casing keeps the length and maps each character |
| Text.LowerIdempotent | src/components/employees/EmployeeList.tsx:15-17 | lower-casing twice is lower-casing once |
| Text.SubstringAt | src/components/employees/EmployeeList.tsx:15-17 | `includes` holds exactly when the needle occurs at some position |
| Text.Trim | src/components/employees/AddEmployee.tsx:29 | `trim` is empty exactly for all-whitespace text; otherwise it starts and ends with a non-space |
| Text.TrimSlice | src/components/employees/AddEmployee.tsx:29 | `trim` removes a whitespace prefix and a whitespace suffix and nothing else |
| Text.TrimIdempotent | src/components/employees/AddEmployee.tsx:29 | trimming twice is trimming once |
| Text.Split | src/components/employees/AddEmployee.tsx:29 | `split(',')` yields one more piece than there are commas, and no piece holds a comma |
| Text.JoinSplit | src/components/employees/AddEmployee.tsx:29 | joining the pieces with commas gives the input back |
| Text.SplitCovers | src/components/employees/AddEmployee.tsx:29 | every non-comma character lies in some piece, and the pieces hold only input characters |
| Rounding.RoundDiv | src/pages/Reports.tsx:37-39 | `Math.round(a / b)` is the nearest integer, halves rounding up |
| Rounding.RoundDivUnique | src/pages/Reports.tsx:37-39 | that nearest integer is the only one within the bounds |
| Rounding.AverageWithinBounds | src/pages/Reports.tsx:37-42 | a rounded mean of values between lo and hi lies between lo and hi |
| Rounding.RoundedAverage | src/pages/Reports.tsx:37-42 | the guarded average is 0 for an empty group |
| Rounding.MaxOneAgrees | src/pages/Reports.tsx:48-52 | dividing by `Math.max(n, 1)` agrees with the `n > 0 ? … : 0` guard whenever an empty group sums to 0 |
| Rounding.Percentage | src/pages/Reports.tsx:270 | the percentage is 0 when the whole is 0 |
| Rounding.PercentageAtMost100 | src/pages/Reports.tsx:270 | the percentage of a part of a whole is at most 100 |
| EmployeeTypes.LevelName | src/types/Employee.ts:8 | a level is written as one of "junior", "mid", "senior", "lead" |
| EmployeeTypes.AsObjectInjective | src/types/Employee.ts:2-15 | two records with the same fields as objects are the same record |
| EmployeeStore.WithIdRoundTrip | src/contexts/EmployeeContext.tsx:89-93 | adding the id to a record without one keeps every other field, and dropping it gives the draft back |
| EmployeeStore.Merge | src/contexts/EmployeeContext.tsx:101 | key by key, the merged record holds the partial's value where the partial names the key and the record's own value elsewhere |
| EmployeeStore.MergeIsSpread | src/contexts/EmployeeContext.tsx:101 | the merged record, as an object, is the old one overridden by the partial's keys: named fields take the partial's values and the others are kept |
| EmployeeStore.MergeLaws | src/contexts/EmployeeContext.tsx:101 | the empty partial changes nothing, merging twice is merging once, and the id stays unless the partial names it |
| EmployeeStore.Appended | src/contexts/EmployeeContext.tsx:94 | adding keeps the old records in front and puts the new one, with the given id, last |
| EmployeeStore.Updated | src/contexts/EmployeeContext.tsx:100-102 | updating keeps the length, merges the partial into every record carrying the id, and leaves the rest alone |
| EmployeeStore.Deleted | src/contexts/EmployeeContext.tsx:108 | deleting drops every record with the id and keeps every other one, in order |
| EmployeeStore.OfLevel | src/contexts/EmployeeContext.tsx:113-115 | the level query returns exactly the records at that level, in collection order |
| EmployeeStore.InDepartment | src/contexts/EmployeeContext.tsx:117-119 | the department query returns exactly the records whose department string equals the argument, in collection order |
| EmployeeStore.AddKeepsUniqueIds | src/contexts/EmployeeContext.tsx:89-94 | adding with an unused id keeps ids unique |
| EmployeeStore.AddWithTakenId | src/contexts/EmployeeContext.tsx:92 | adding with an id already present breaks uniqueness, and a later delete of that id removes more than the new record |
| EmployeeStore.UpdateMissingIsNoop | src/contexts/EmployeeContext.tsx:99-102 | updating an absent id changes nothing |
| EmployeeStore.UpdateIdempotent | src/contexts/EmployeeContext.tsx:99-102 | updating twice with the same id and partial is updating once |
| EmployeeStore.UpdateKeepsIds | src/contexts/EmployeeContext.tsx:99-102 | a partial without an id keeps every record's id, so unique ids stay unique |
| EmployeeStore.DeleteLaws | src/contexts/EmployeeContext.tsx:107-108 | deleting an absent id changes nothing, and deleting twice is deleting once |
| EmployeeStore.DeleteRemovesOne | src/contexts/EmployeeContext.tsx:107-108 | with unique ids, deleting a present id removes exactly one record |
| EmployeeStore.FilterKeepsUniqueIds | src/contexts/EmployeeContext.tsx:108 | any filtering, deletion included, keeps unique ids unique |
| EmployeeStore.Store.constructor | src/contexts/EmployeeContext.tsx:76-87 | on mount, the store holds the saved collection if there is one, otherwise the sample employees, which are also written out; the catalog is the fixed one |
| EmployeeStore.Store.AddEmployee | src/contexts/EmployeeContext.tsx:89-97 | the new collection is the old one with the record appended, and the durable copy equals it |
| EmployeeStore.Store.UpdateEmployee | src/contexts/EmployeeContext.tsx:99-105 | the new collection is the merged one, and the durable copy equals it |
| EmployeeStore.Store.DeleteEmployee | src/contexts/EmployeeContext.tsx:107-111 | the new collection is the filtered one, and the durable copy equals it |
| EmployeeStore.Store.EmployeesByLevel | src/contexts/EmployeeContext.tsx:113-115 | returns exactly the current records at the level, in order, without changing the store |
| EmployeeStore.Store.EmployeesByDepartment | src/contexts/EmployeeContext.tsx:117-119 | returns exactly the current records of the department, in order, without changing the store |
| Aggregates.ActiveCount | src/components/dashboard/Dashboard.tsx:12 | the active count never exceeds the total |
| Aggregates.StatusPartition | src/types/Employee.ts:13 | every record is either active or inactive, so the two counts add up to the total |
| Aggregates.LevelsPartition | src/components/dashboard/Dashboard.tsx:17-22 | the four level counts add up to the total |
| Aggregates.MeanWithin | src/pages/Departments.tsx:14-19 | a guarded rounded mean is 0 for an empty group and otherwise lies between any bounds of the values |
| Aggregates.Names | src/contexts/EmployeeContext.tsx:25-31 | the catalog's names, one per department, in order |
| Aggregates.SampleNamesDistinct | src/contexts/EmployeeContext.tsx:25-31 | the five catalog names are distinct |
| Aggregates.CountsOverCover | src/components/dashboard/Dashboard.tsx:24-27 | over distinct names, the per-name counts add up to the number of records in any of those departments |
| Aggregates.CountsOverBound | src/components/dashboard/Dashboard.tsx:24-27 | those counts add up to at most the total, and to less when some record's department is outside the names |
| EmployeeList.FilteredEmployees | src/components/employees/EmployeeList.tsx:14-22 | the list shows exactly the records matching search, department and level, in collection order |
| EmployeeList.NoCriteriaShowsAll | src/components/employees/EmployeeList.tsx:14-22 | with no search, department or level, every record is shown |
| EmployeeList.SearchMeaning | src/components/employees/EmployeeList.tsx:15-17 | the search ignores case and matches when the term occurs in the name, position or e-mail |
| EmployeeList.ShownTotals | src/components/employees/EmployeeList.tsx:14-22 | the shown and hidden records split the collection, so their salary totals add up |
| EmployeeList.DepartmentOptions | src/components/employees/EmployeeList.tsx:24 | the department choices are the departments in use, each once, in order of first appearance |
| AddEmployee.InitialForm | src/components/employees/AddEmployee.tsx:11-22 | the form opens empty, at junior, active, with 0 years, 0 salary and today's date |
| AddEmployee.ParseSkills | src/components/employees/AddEmployee.tsx:29 | the parsed skills are exactly the non-empty trimmed comma-separated pieces, each as often as it occurs, in input order; none is empty or padded with whitespace |
| AddEmployee.ParseSkillsEmpty | src/components/employees/AddEmployee.tsx:29 | no skill is parsed exactly when the field holds only commas and whitespace |
| AddEmployee.Submitted | src/components/employees/AddEmployee.tsx:27-30 | the submitted record is the form state with the skills text replaced by the parsed list, and has no manager |
| AddEmployee.HandleSubmit | src/components/employees/AddEmployee.tsx:24-32 | submitting appends exactly the submitted record, with the store's id |
| EmployeeCard.Toggled | src/components/employees/EmployeeCard.tsx:20 | the toggle always changes the status |
| EmployeeCard.ToggleTwice | src/components/employees/EmployeeCard.tsx:20 | toggling twice restores the status |
| EmployeeCard.StatusPatch | src/components/employees/EmployeeCard.tsx:21 | the partial sent by the toggle names the status and nothing else |
| EmployeeCard.ToggleChangesOnlyStatus | src/components/employees/EmployeeCard.tsx:19-21 | the toggle changes the status of the records with the card's id and nothing else |
| EmployeeCard.HandleStatusToggle | src/components/employees/EmployeeCard.tsx:19-26 | the store's new collection is the one updated with the toggled status |
| EmployeeCard.HandleDelete | src/components/employees/EmployeeCard.tsx:28-37 | the record is deleted when the user confirms, and the store is unchanged otherwise |
| EmployeeCard.CanEdit | src/components/employees/EmployeeCard.tsx:17 | nobody signed in cannot edit; a signed-in user can edit exactly when the role is admin or manager (`Sidebar.EditorRoles` ties it to the sidebar's restricted entries) |
| EmployeeCard.Controls | src/components/employees/EmployeeCard.tsx:105-129 | the details button is always there; the status and delete buttons appear exactly for admins and managers |
| EmployeeCard.ExperienceColor | src/components/employees/EmployeeCard.tsx:39-47 | an unknown level gets the grey default |
| EmployeeCard.ExperienceColorsDistinct | src/components/employees/EmployeeCard.tsx:39-47 | each of the four levels has its own colour, none of them the default |
| Dashboard.ComputeStats | src/components/dashboard/Dashboard.tsx:10-15 | total, active no more than total, catalog size, and an average salary of 0 for an empty collection |
| Dashboard.AverageSalaryWithin | src/components/dashboard/Dashboard.tsx:14 | the average salary lies between the smallest and largest salary |
| Dashboard.ExperienceLevels | src/components/dashboard/Dashboard.tsx:17-22 | the level counts add up to the total |
| Dashboard.DepartmentStats | src/components/dashboard/Dashboard.tsx:24-27 | one count per catalog department, in catalog order |
| Dashboard.DepartmentStatsBound | src/components/dashboard/Dashboard.tsx:24-27 | over distinct names, the counts total at most the collection size, and less when a record's department is not in the catalog |
| Dashboard.CatalogStatsBound | src/components/dashboard/Dashboard.tsx:24-27 | the same bound for the fixed catalog: a record in a department outside the catalog is counted nowhere |
| Dashboard.RecentEmployees | src/components/dashboard/Dashboard.tsx:154 | the recent list is the first five records, or all of them when there are fewer |
| Reports.Metrics | src/pages/Reports.tsx:35-42 | total, active no more than total, and averages of 0 for an empty collection |
| Reports.DepartmentData | src/pages/Reports.tsx:45-53 | one row per catalog department, in catalog order; the `max(count, 1)` average equals the guarded average and is 0 for an empty department |
| Reports.ExperienceData | src/pages/Reports.tsx:56-61 | the four level counts add up to the total |
| Reports.SalaryByExperience | src/pages/Reports.tsx:64-89 | each level's average salary is the guarded rounded mean of that level, 0 for an empty level |
| Reports.EmploymentRate | src/pages/Reports.tsx:270 | the employment rate is 0 with no employees and never above 100 |
| Reports.AllSkills | src/pages/Reports.tsx:282 | the flattened list has one entry per listed skill and starts with the first employee's skills in their order |
| Reports.AllSkillsMembers | src/pages/Reports.tsx:282 | a skill is in the flattened list exactly when some employee lists it |
| Reports.SkillDiversity | src/pages/Reports.tsx:282 | the diversity is the number of distinct skills, at most the number of skill entries, and 0 for no employees |
| Departments.DepartmentStatsFor | src/pages/Departments.tsx:11-27 | the card counts the department's records, active no more than total, with averages of 0 for an empty department |
| Departments.AveragesWithin | src/pages/Departments.tsx:14-19 | for a non-empty department, both averages lie between the bounds of their values |
| Departments.ActivePercentage | src/pages/Departments.tsx:97-101 | the active percentage is shown exactly for a department with employees, and is then at most 100 |
| Departments.CardPercentageInRange | src/pages/Departments.tsx:97-101 | every card's shown percentage is at most 100 |
| Departments.Cards | src/pages/Departments.tsx:44-45 | one card per catalog department, in catalog order |
| Departments.EmptyStateShown | src/pages/Departments.tsx:117 | "No departments found" appears exactly when there are no cards |
| ExperienceLevels.LevelStatsFor | src/pages/ExperienceLevels.tsx:43-58 | a level's records in order, their count, and averages of 0 for an empty level |
| ExperienceLevels.LevelPercentage | src/pages/ExperienceLevels.tsx:79 | the share is 0 with no employees, otherwise the rounded percentage, and at most 100 |
| ExperienceLevels.Listed | src/pages/ExperienceLevels.tsx:144 | at most five names are listed: the first ones at the level |
| ExperienceLevels.MoreLabel | src/pages/ExperienceLevels.tsx:165-167 | "+k more" appears exactly when the count exceeds five, with k the rest |
| ExperienceLevels.ListedAndMoreCoverLevel | src/pages/ExperienceLevels.tsx:144-167 | the listed names and the "+k more" account for every member of the level |
| ExperienceLevels.ListedCountsCoverAll | src/pages/ExperienceLevels.tsx:12-41 | the counts of the four listed levels add up to the total |
| ProtectedRoute.Decide | src/components/ProtectedRoute.tsx:11-38 | a spinner while loading, the login redirect without a user, "Access Denied" exactly when a role list is given without the user's role, and the page otherwise |
| ProtectedRoute.OpenRouteAdmitsEveryone | src/components/ProtectedRoute.tsx:26 | a page without a role list admits every signed-in user |
| ProtectedRoute.EmptyRoleListDeniesEveryone | src/components/ProtectedRoute.tsx:26 | an empty role list counts as given, so it denies everyone |
| ProtectedRoute.RouteRequirement | src/App.tsx:35-76 | only the add-employee and reports pages carry a role list, admins and managers |
| Sidebar.EffectiveRole | src/components/layout/Sidebar.tsx:20 | a missing user or an empty role counts as "employee"; any other role is used as stored |
| Sidebar.Visible | src/components/layout/Sidebar.tsx:19-21 | the listed entries are exactly those without roles or open to the effective role, in display order |
| Sidebar.IsActive | src/components/layout/Sidebar.tsx:28 | an entry is highlighted exactly when the path is its link target (`Sidebar.AtMostOneActive` shows at most one is) |
| Sidebar.SignedOutNavigation | src/components/layout/Sidebar.tsx:10-21 | signed out, exactly the unrestricted entries show; "Add Employee" and "Reports" do not |
| Sidebar.RestrictedEntries | src/components/layout/Sidebar.tsx:13-20 | "Add Employee" and "Reports" are listed exactly for the users the card lets edit |
| Sidebar.EditorRoles | src/components/layout/Sidebar.tsx:20 | the effective role is admin or manager exactly when the user can edit |
| Sidebar.OpenEntries | src/components/layout/Sidebar.tsx:19-21 | the unrestricted entries are listed for everybody |
| Sidebar.NavigationTargetsDistinct | src/components/layout/Sidebar.tsx:10-17 | no two entries link to the same path |
| Sidebar.AtMostOneActive | src/components/layout/Sidebar.tsx:28 | at most one listed entry is highlighted for any path |
| Sidebar.EntriesMatchRoutes | src/components/layout/Sidebar.tsx:10-17 | each entry's role list is the one its page is guarded with |
| Sidebar.PermitsIffAdmitted | src/components/layout/Sidebar.tsx:19-21 | an entry guarded like its page is open to a signed-in user exactly when the guard admits the user |
| Sidebar.VisibleIffAdmitted | src/components/layout/Sidebar.tsx:19-21 | for a signed-in user, an entry is listed exactly when its page lets the user in |
| DemoAccounts.Seeded | src/pages/Index.tsx:10-38 | the user list is never empty after seeding: an empty list becomes the demo accounts, and any other list is kept |
| DemoAccounts.SeedIdempotent | src/pages/Index.tsx:10-38 | seeding twice is seeding once |
| DemoAccounts.DemoUsersShape | src/pages/Index.tsx:13-35 | the demo accounts have distinct ids and e-mails, one per role, and the password "password" |
| DemoAccounts.CredentialsMatchSeed | src/pages/Index.tsx:170-184 | each displayed credential pair is the seeded account's e-mail and password |
| DemoAccounts.LandingView | src/pages/Index.tsx:40-61 | a signed-in user is welcomed by name; anybody else sees the marketing page |
| DemoAccounts.UserStorage.constructor | src/pages/Index.tsx:11 | the storage starts with the saved list |
| DemoAccounts.UserStorage.SeedDemoUsers | src/pages/Index.tsx:10-38 | the new list is the seeded old list; a non-empty list is untouched |
| FormNumbers.Decimal | src/pages/Reports.tsx:38 | the text `+` writes for a number is a non-empty string of decimal digits that starts with `0` only for zero |
| FormNumbers.ReadNumber | src/components/employees/AddEmployee.tsx:42-47 | the reader of the corrected form, which the source lacks: a numeric input is read exactly when it is a non-empty digit string |
| FormNumbers.ReadNumberRoundTrip | src/pages/Reports.tsx:38 | reading back the digits `Decimal` writes gives the number back; with `Decimal`'s no-leading-zero clause this fixes the text as the number's own digits |
| FormNumbers.JsPlus | src/pages/Reports.tsx:38 | JavaScript's `+` gives a number exactly when both sides are numbers, then their sum; a number plus a text joins the number's digits and the text |
| FormNumbers.ReduceFrom | src/pages/Reports.tsx:38 | a left-fold `reduce` over numbers from a numeric start yields a number |
| FormNumbers.HandleChangeAsWritten | src/components/employees/AddEmployee.tsx:42-47 | as written, a change of a numeric input stores its text in that field and leaves the other |
| FormNumbers.TypedSalaryIsText | src/components/employees/AddEmployee.tsx:42-47 | as written, typing any salary leaves a text in the field, and a salary reduce that meets it yields a text |
| FormNumbers.HandleNumberChange | src/components/employees/AddEmployee.tsx:42-47 | corrected: a readable numeric input is stored as the number it reads, an unreadable one leaves the form unchanged, and every other field is kept |
| FormNumbers.TypedSalaryIsStored | src/components/employees/AddEmployee.tsx:42-47 | corrected: typing a salary's digits stores it, the submitted record carries it, and the numeric reduce over the collection with that record is the old total plus that salary |
| FormNumbers.TypedSalaryField | src/components/employees/AddEmployee.tsx:42-47 | corrected: typing a salary's digits sets the salary field to that salary and leaves every other field |
| FormNumbers.ReduceWithOneMore | src/pages/Reports.tsx:38 | with numbers stored, the reduce over a collection with one more record is the old total plus its salary |
| FormNumbers.SumConcatenates | src/components/employees/AddEmployee.tsx:42-47 | as written, a number followed by a form-added text sums to the joined text |
| FormNumbers.TextPoisonsSum | src/pages/Reports.tsx:38 | as written, once any salary is a text, the reduce yields a text |
| FormNumbers.SampleSalaryDigits | src/contexts/EmployeeContext.tsx:42 | the first sample salary is written "95000" |
| FormNumbers.NumericReduceIsSalaryTotal | src/pages/Reports.tsx:38 | with numbers stored, the reduce is the arithmetic salary total |

## Left out

- Durable storage and JSON: the store's durable copy is the ghost field `stored`. The saved collection arrives as a constructor argument. Parse errors and storage quotas are not modelled.
- Ids: `Date.now().toString()` is a caller-supplied parameter. Collisions are not ruled out; `AddWithTakenId` shows their effect.
- Clearing fields: a partial cannot clear `managerId` back to absent, because a key explicitly set to `undefined` is not modelled.
- React plumbing is not modelled: hooks, effect scheduling, JSX, charts, toasts, navigation, date formatting and `toLocaleString`. The confirmation dialog is a boolean input of `HandleDelete`. Today's date is an input of `InitialForm`.
- Sign-in, sign-up and the authentication context are not part of this model. The session is an optional `User` input, and loading is a boolean input of `ProtectedRoute.Decide`.
- Presentation is not modelled: the CSS width expressions (Dashboard.tsx:128, which gives NaN on an empty collection; Departments.tsx:106, which is only computed for a department with employees, as Departments.tsx:97 guards it), icons, colours other than the level badge, and the hard-coded trend strings of the reports page.
- Floating point: all numbers are non-negative integers.
- Rounding.Percentage: computes `round(100 a / t)` exactly, while the source rounds the float `(a / t) * 100`. The two can differ when the float product lands just beside a half (29 of 200: the float gives 14, the model 15). Its callers Reports.EmploymentRate, ExperienceLevels.LevelPercentage and Departments.ActivePercentage inherit the same difference.
- AddEmployee.Submitted: salary and years of experience are naturals. The source stores them as text; the consequences are under "Findings".
- FormNumbers.ReadNumber: belongs to the corrected form only; the source stores the input's text and reads no number. It accepts only digit strings, so a corrected form that must take a sign, a decimal point or an exponent is not modelled.
- Text.Lower: lower-cases ASCII letters only. JavaScript's full Unicode case mapping is not modelled.
- Text.Trim: strips space, tab, line feed, vertical tab, form feed and carriage return only. JavaScript's other Unicode whitespace is not modelled.
- Department catalog: the catalog is fixed because no operation changes it. Employee departments are free strings, so a record in a department outside the catalog appears on no department card; `Dashboard.CatalogStatsBound` states this.

## Findings

| source | as written | input that shows it | evidently intended | confidence | as-written member | corrected member |
|---|---|---|---|---|---|---|
| src/components/employees/AddEmployee.tsx:42-47 | `handleChange` stores the salary and years inputs as text, so `reduce((sum, emp) => sum + emp.salary, 0)` concatenates once a form-added record is present | the sample salary 95000 followed by a form-added salary "50000" totals "9500050000", not 145000 | store the inputs as numbers, so the reduce is the arithmetic total | not executed | FormNumbers.TypedSalaryIsText | FormNumbers.TypedSalaryIsStored |
