# Student portal core, modelled in Dafny

The student portal is a Next.js front end for a university. Behind its pages sits a set of small pure
helpers, and this project models them and proves their properties:

- the attendance sheet's counts and percentages;
- the cumulative hours of a taught course;
- the progress of an academic year;
- the status and enum labelers, each with the option list that should agree with it;
- the status filters and counters of course and period enrollments;
- the language-list formatter and parser of an application form;
- the colour derived from a user's name, through a 32-bit string hash;
- the LMD reference tables (classes, cycles), payment methods and currencies, and the
  "options with disabled" helpers built from them;
- the select-option builders for classrooms, periods, teaching units, courses, programme courses,
  admission-test courses and teachers;
- three page-level rules: the period list of the course page, the credit total of the programme page,
  and the loading bar and year check of the year selector.

Conventions:

- A possibly-undefined JavaScript array is an `Option<seq<T>>`. A nullable field is an `Option`.
- An enumerated field stays a `string`, so every labeler's default branch stays reachable.
- Numbers are exact. Integers are `int`. Hours, credits and percentages are `real`.
- Timestamps are integer milliseconds. The current time is a parameter.
- A select option is `SelectOption(value, text)`. `text` is the source's `label`.
  - When `disabled` is a boolean, the option is `FlaggedOption`.
  - When `disabled` may be `undefined`, the option is `ToggleOption` with an `Option<bool>`.
- A labeler is proved equal, on every string, to a lookup in a closed `Table` with a fallback (`Labels.Label`).
- The source's 32-bit wrap-around (`<<`) is written out as `Utils.ToInt32`.
- JavaScript's truncating `%` is written out as `Utils.JsRem`.

The modules follow the source files. Shared building blocks sit in their own modules:

- `Wrappers`: `Option`.
- `Seqs`: filter, map, `some`, `find`, and a sum fold, each with its lemmas.
- `Text`: `split`, `join`, `trim`, lower case, substring search, and decimal rendering.
- `Labels`: tables and option records.
- `Records`: the API records.

The model relies on these string semantics of JavaScript built-ins, each defined once and proved where the
language helpers need it:

- `Text.Split` is `String.prototype.split` with a one-character separator, with `Text.Join` as its inverse.
- `Text.Trim` is `trim`: it drops the leading and trailing characters of `Text.Whitespace`.
- `Text.Lower` lower-cases A–Z. `Text.Contains` is `includes`.
- `Text.Decimal` renders a natural number in decimal, as a template literal does.
- `Labels.Parenthesized` is the template literal `${a} (${b})`. It is injective on labels whose first part has no space.

Only `Utils.GetHashOfString` and `YearSelector.LoadingBar` are imperative, because the source keeps
state there:

- `getHashOfString` updates a local `hash` in a `for` loop. In the model it is a `while` loop proved
  against the fold `HashFold`.
- The year selector's `percent` is component state stepped by a timer. In the model it is a class
  field that `Tick` updates, and the class keeps it valid.

## Model

| member | source | states |
|---|---|---|
| AttendanceList.AttendancePresentCount | src/lib/api/attendance-list.ts:52-56 | undefined for an undefined list; otherwise the number of positions whose status is "present" |
| AttendanceList.AttendanceAbsentCount | src/lib/api/attendance-list.ts:57-61 | undefined for an undefined list; otherwise the number of positions whose status is "absent" |
| AttendanceList.AttendanceJustifiedCount | src/lib/api/attendance-list.ts:62-66 | undefined for an undefined list; otherwise the number of positions whose status is "justified" |
| AttendanceList.CountsBounded | src/lib/api/attendance-list.ts:52-66 | each count is at most the list length |
| AttendanceList.Percentage | src/lib/api/attendance-list.ts:68-75 | 0 for an empty total, so there is no division by zero; otherwise count/total × 100; always within [0, 100] |
| AttendanceList.AttendancePresentPercentage | src/lib/api/attendance-list.ts:68-75 | 0 for an undefined or empty list; otherwise present count / length × 100, unrounded, within [0, 100] |
| AttendanceList.AttendanceAbsentPercentage | src/lib/api/attendance-list.ts:76-83 | the same for "absent" |
| AttendanceList.AttendanceJustifiedPercentage | src/lib/api/attendance-list.ts:84-90 | the same for "justified" |
| AttendanceList.CountsSumToLength | src/lib/api/attendance-list.ts:52-66 | when every status is present, absent or justified, the three counts add up to the length |
| AttendanceList.PercentagesSumTo100 | src/lib/api/attendance-list.ts:68-90 | for a non-empty list of such items, the three percentages add up to exactly 100 |
| AttendanceList.AttendanceItemsFromCourseEnrollments | src/lib/api/attendance-list.ts:92-102 | [] for undefined; otherwise one item per enrollment, in order, with its student, status "present" and a null note |
| AttendanceList.BuiltSheetAllPresent | src/lib/api/attendance-list.ts:68-102 | the present percentage of a sheet built from a non-empty enrollment list is 100 |
| AttendanceList.AttendanceStudentStatut | src/lib/api/attendance-list.ts:114-122 | present, absent and justified give "Présent", "Absent" and "Absence justifiée", the only values the parameter type admits; the model gives undefined for any other string |
| HoursTracking.CumulativeHours | src/lib/api/hour-tracking.ts:89-100 | 0 for an undefined or empty list; otherwise the sum of the coercible values, where a non-number counts 0 |
| HoursTracking.CumulativeHoursAppend | src/lib/api/hour-tracking.ts:95-99 | appending a record adds exactly its value, or nothing when it is not a number |
| HoursTracking.CumulativeHoursPermutation | src/lib/api/hour-tracking.ts:95-99 | the total does not depend on the order of the records |
| HoursTracking.CumulativeHoursNonNegative | src/lib/api/hour-tracking.ts:95-99 | with no negative value, the total is not negative |
| HoursTracking.MixedRecordsExample | src/lib/api/hour-tracking.ts:95-99 | hours 2, a non-number and 3 add up to 5 |
| HoursTracking.HourTrackingActivityTypeName | src/lib/api/hour-tracking.ts:60-75 | for every string, the label of the four-entry activity table, otherwise "Inconnu" |
| HoursTracking.HourTrackingActivityTypeOptions | src/lib/api/hour-tracking.ts:77-87 | four options; each carries the table's label for its value, and each activity type appears exactly once |
| HoursTracking.ActivityTypeOptionsAgree | src/lib/api/hour-tracking.ts:60-87 | each option's label is the labeler's label for its value |
| Years.YearStatusName | src/lib/api/year.ts:9-28 | for every string, the label of the four-entry status table, otherwise "Inconnu" |
| Years.YearStatusColor | src/lib/api/year.ts:30-53 | for every string, the colour of the four-entry status table, otherwise "default" |
| Years.YearStatusTablesInjective | src/lib/api/year.ts:9-53 | the four statuses have four distinct labels and four distinct colours, none of them the fallback |
| Years.YearsAsOptions | src/lib/api/year.ts:56-60 | undefined for undefined; otherwise one {id, name} option per year, in order |
| Years.DateDiffInDays | src/lib/api/year.ts:62-69 | the whole number of days d with d·day ≤ end − start < (d+1)·day, i.e. the floor |
| Years.Round | src/lib/api/year.ts:81 | `Math.round`: the integer nearest x, halves rounded up |
| Years.YearProgressPercent | src/lib/api/year.ts:71-82 | 0 when now ≤ start; 100 when now ≥ end; otherwise the rounded share of whole days passed; NaN (None) only when the interval is shorter than a day; always within [0, 100] |
| Years.DaysWithin | src/lib/api/year.ts:78-79 | strictly inside the interval, 0 ≤ days passed ≤ total days |
| Years.PercentBounds | src/lib/api/year.ts:80-81 | the rounded percentage of a share between 0 and 1 is within [0, 100] |
| Years.DateOnlyProgressDefined | src/lib/api/year.ts:71-82 | with date-only start and end and start < now < end, total days ≥ 1 and the result is a number |
| Years.ProgressMonotone | src/lib/api/year.ts:71-82 | for a fixed interval, the result never decreases as now grows |
| Years.FractionMonotone | src/lib/api/year.ts:80-81 | the rounded percentage grows with the days passed |
| Years.HalfwayExample | src/lib/api/year.ts:71-82 | five days into a ten-day interval gives 50 |
| Application.ApplicationStatusName | src/lib/api/application.ts:289-304 | for every string, the label of the four-entry status table, otherwise "Inconnu" |
| Application.ApplicationStatusTypographyType | src/lib/api/application.ts:306-321 | warning, success, danger and secondary for the four statuses; undefined for any other string |
| Application.ApplicationStatusAlertType | src/lib/api/application.ts:323-338 | warning, success, error and info for the four statuses; undefined for any other string |
| Application.ApplicationStatusOptionsAgree | src/lib/api/application.ts:340-345 | four options; each label is the labeler's label for its value; each status appears; only "reoriented" is disabled |
| Application.FormatLanguages | src/lib/api/application.ts:347-349 | the languages joined in order with ", "; [] gives "" |
| Application.ParseLanguages | src/lib/api/application.ts:351-359 | every entry is non-empty, comma-free and trimmed; "" parses to [] |
| Application.ParseFormatRoundTrip | src/lib/api/application.ts:347-359 | parsing a formatted list gives it back when each language is non-empty, comma-free and trimmed |
| Application.ParseFormatParse | src/lib/api/application.ts:347-359 | parse, format and parse again equals parse |
| Application.SplitJoined | src/lib/api/application.ts:355 | splitting a ", "-joined list of comma-free names at commas gives the first name, then each further name behind one space |
| Application.ParseOfJoin | src/lib/api/application.ts:351-359 | parsing a ", "-joined list of clean names gives one language per name, in order |
| Application.IdOrNull | src/lib/api/application.ts:366 | `x?.id \|\| null`: the id, or null when the object is null or its id is 0 |
| Application.FormatApplicationDocumentsForEdition | src/lib/api/application.ts:361-368 | same length and order; every other field kept; the required document replaced by its id, or null when it is null or its id is 0 |
| Application.FormatEnrollmentQuestionResponseForEdition | src/lib/api/application.ts:370-378 | the same for the registered question |
| Application.FormatAdmissionTestResultsForEdition | src/lib/api/application.ts:380-386 | the same for the test course, and a result of 0 or null becomes null |
| CourseEnrollments.CourseEnrollmentsByStatus | src/lib/api/course-enrollment.ts:84-89 | undefined for undefined; otherwise the enrollments with the requested status, in input order (a subsequence), one per matching position; with `Seqs.FilterDetermined` this fixes the list |
| CourseEnrollments.CourseEnrollmentsCountByStatus | src/lib/api/course-enrollment.ts:91-96 | 0 for undefined; otherwise the number of matching positions, at most the length; 0 when the status is omitted |
| CourseEnrollments.ByStatusIdempotent | src/lib/api/course-enrollment.ts:84-89 | filtering twice by one status equals filtering once |
| CourseEnrollments.CountsSumToStated | src/lib/api/course-enrollment.ts:84-96 | the pending, validated and rejected counts add up to the number of enrollments with a non-null status |
| PeriodEnrollments.PeriodEnrollmentsByStatus | src/lib/api/period-enrollment.ts:59-64 | undefined for undefined; otherwise the enrollments with the requested status, in input order (a subsequence), one per matching position; with `Seqs.FilterDetermined` this fixes the list |
| PeriodEnrollments.PeriodEnrollmentsCountByStatus | src/lib/api/period-enrollment.ts:66-71 | 0 for undefined; otherwise the number of matching positions, at most the length |
| PeriodEnrollments.ByStatusIdempotent | src/lib/api/period-enrollment.ts:59-64 | filtering twice by one status equals filtering once |
| PeriodEnrollments.CountsSumToLength | src/lib/api/period-enrollment.ts:59-71 | with the schema's three statuses, the three counts add up to the length |
| Utils.ToInt32 | src/lib/utils.ts:5 | ECMAScript ToInt32: a value in [−2^31, 2^31) congruent to the input modulo 2^32 |
| Utils.GetHashOfString | src/lib/utils.ts:2-9 | loop over the code units; returns the absolute value of the fold of `code + (toInt32(toInt32(hash)·32) − hash)`, never negative |
| Utils.HashExamples | src/lib/utils.ts:2-9 | the hash of "" is 0, of "a" is 97 and of "ab" is 3105 |
| Utils.HashFoldBound | src/lib/utils.ts:4-6 | after n code units the fold is at most n·(2^31 + 2^16) in size |
| Utils.HashExactInDoubles | src/lib/utils.ts:2-9 | for strings of up to 2^21 code units the fold stays below 2^53, so double arithmetic computes it exactly |
| Utils.JsRem | src/lib/utils.ts:12 | JavaScript's `%`: congruent to the dividend modulo the divisor, smaller than the divisor in size, with the dividend's sign; so exactly the truncating remainder |
| Utils.JsRemOdd | src/lib/utils.ts:12 | negating the dividend negates the remainder |
| Utils.NormalizeHash | src/lib/utils.ts:11-13 | NaN (None) exactly when min = max; for a non-negative hash, the hash modulo the width \|max − min\|, shifted by min; within [min, max) when min < max |
| Utils.GenerateHSL | src/lib/utils.ts:15-24 | h ∈ [0, 360), s ∈ [50, 75), l ∈ [25, 60) for every string |
| Utils.GenerateHSLFromHash | src/lib/utils.ts:15-24 | the three components are one hash reduced modulo 360, 25 and 35, shifted to 0, 50 and 25 |
| Utils.GetHSLColor | src/lib/utils.ts:26-30 | the colour string starts with "hsl(" and ends with "%)" |
| Utils.HSLColorReadsBack | src/lib/utils.ts:26-30 | the string is "hsl(h, s%, l%)" with three decimal numerals that read back as the components |
| Utils.EmptyNameColor | src/lib/utils.ts:26-30 | the empty name gives "hsl(0, 50%, 25%)" |
| Utils.MaritalStatusName | src/lib/utils.ts:32-47 | for every string, the label of the four-entry marital-status table, otherwise "Inconnu" |
| Utils.FilterOption | src/lib/utils.ts:49-57 | true for empty input with any option, including none; otherwise true iff the lowered input occurs in the lowered label |
| Utils.FilterOptionKeepsSubstrings | src/lib/utils.ts:49-57 | an option whose label contains the input verbatim passes |
| Utils.FilterOptionWithoutOption | src/lib/utils.ts:49-57 | without an option, only the empty input passes |
| Classes.ClassesTable | src/lib/data/classes.ts:7-80 | nine entries with acronyms L0–L3, M1–M2, D1–D3, order numbers 0–3, 1–2, 1–3, and cycles Licence, Master, Doctorat by block |
| Classes.ClassNamesDistinct | src/lib/data/classes.ts:7-80 | no two entries share a name |
| Classes.ClassesAsOptions | src/lib/data/classes.ts:82-84 | one {name, name} option per entry, in table order |
| Classes.ClassesAsOptionsWithDisabled | src/lib/data/classes.ts:86-98 | the same options; disabled undefined without current classes, otherwise true iff a current class has the name |
| Classes.ClassesByCycleAsOptionsWithDisabled | src/lib/data/classes.ts:100-123 | name options with the same disabled rule |
| Classes.ClassesByCycle | src/lib/data/classes.ts:100-123 | Licence lists "Année préparatoire" and Licence 1–3, Master lists Master 1–2, Doctorat lists Doctorat 1–3, in table order |
| Classes.LicenceKeepsBlock | src/lib/data/classes.ts:104-113 | the cycle filter for Licence keeps exactly the Licence entries, in order |
| Classes.MasterKeepsBlock | src/lib/data/classes.ts:104-113 | the cycle filter for Master keeps exactly the Master entries, in order |
| Classes.DoctoratKeepsBlock | src/lib/data/classes.ts:104-113 | the cycle filter for Doctorat keeps exactly the Doctorat entries, in order |
| Classes.GetClass | src/lib/data/classes.ts:125-126 | an entry exactly when the name is in the table, and then the entry with that name |
| Classes.GetClassOfOption | src/lib/data/classes.ts:82-126 | each option's value finds that option's own entry |
| Cycles.CyclesTable | src/lib/data/cycles.ts:3-32 | Licence, Master and Doctorat with symbols L, M, D, order numbers 1, 2, 3, credits 180, 120, 180, and planned semesters twice the planned years |
| Cycles.CyclesLMDAsOptions | src/lib/data/cycles.ts:34-36 | one {name, name} option per cycle, in table order |
| Cycles.CyclesLMDAsOptionsWithDisabled | src/lib/data/cycles.ts:37-41 | disabled undefined without current cycles, otherwise true iff a current cycle has the name |
| Cycles.GetCycleLMD | src/lib/data/cycles.ts:43-44 | an entry exactly when the name is in the table, and then the entry with that name |
| Cycles.GetCycleOfEachName | src/lib/data/cycles.ts:43-44 | each of the three typed names finds its entry |
| PaymentMethods.PaymentMethodsTable | src/lib/data/paymentMethods.ts:3-28 | five methods with distinct names |
| PaymentMethods.PaymentMethodsAsOptions | src/lib/data/paymentMethods.ts:30-32 | one {name, name} option per method, in order |
| PaymentMethods.PaymentMethodsAsOptionsWithDisabled | src/lib/data/paymentMethods.ts:34-38 | disabled undefined without current methods, otherwise true iff a current method has the name |
| PaymentMethods.GetPaymentMethod | src/lib/data/paymentMethods.ts:40-41 | defined exactly when the name is in the table, and then the method with that name |
| PaymentMethods.GetPaymentMethodDefined | src/lib/data/paymentMethods.ts:40-41 | defined exactly for the five names |
| Currencies.CurrenciesAsOptions | src/lib/data/currencies.ts:16-18 | one {name, name} option per currency, in order |
| Currencies.CurrenciesAsOptionsWithDisabled | src/lib/data/currencies.ts:20-24 | disabled undefined without current currencies, otherwise true iff a current currency has the name |
| Currencies.GetCurrency | src/lib/data/currencies.ts:26-27 | an entry exactly when the name is in the table, and then the entry with that name |
| Currencies.GetCurrencyByName | src/lib/data/currencies.ts:3-27 | the two names find USD "$" and CDF "Fr"; the ISO codes "USD" and "CDF" find nothing |
| Classrooms.ClassroomTypeName | src/lib/api/classroom.ts:83-112 | for every string, the label of the seven-entry room-type table, otherwise "Inconnu" |
| Classrooms.FirstSevenAgree | src/lib/api/classroom.ts:56-112 | eight options; the first seven carry the labeler's labels |
| Classrooms.FirstSevenCover | src/lib/api/classroom.ts:56-112 | the first seven options name each of the labeler's seven types once |
| Classrooms.OtherLabelDisagrees | src/lib/api/classroom.ts:56-112 | the list labels "other" "Autre", but the labeler gives "Inconnu" |
| Classrooms.ClassroomTypeNameIntended | src/lib/api/classroom.ts:83-112 | the labeler with an "other" case: the eight-entry table, otherwise "Inconnu" |
| Classrooms.IntendedLabelsAgree | src/lib/api/classroom.ts:56-65 | with the "other" case, every option's label is the labeler's label for its value |
| Classrooms.IntendedLabelsCover | src/lib/api/classroom.ts:56-65 | with the "other" case, each of the eight types appears once |
| Classrooms.ClassroomsAsOptions | src/lib/api/classroom.ts:67-71 | undefined for undefined; otherwise one {id, name} option per classroom, in order |
| Classrooms.ClassroomsAsOptionsWithDisabled | src/lib/api/classroom.ts:73-81 | the same, disabled iff the status is "occupied"; a null or "unoccupied" status stays enabled |
| Classrooms.WithDisabledExtendsOptions | src/lib/api/classroom.ts:67-81 | both lists agree on every value and label |
| Periods.PeriodTypeName | src/lib/api/period.ts:87-102 | for every string, the label of the four-entry period-type table, otherwise "Inconnu" |
| Periods.PeriodTypeOptionsAgree | src/lib/api/period.ts:68-102 | four options; each label is the labeler's label for its value |
| Periods.PeriodTypeOptionsCover | src/lib/api/period.ts:68-85 | each period type appears exactly once |
| Periods.CurrentPeriodsAsOptions | src/lib/api/period.ts:104-108 | undefined for undefined; otherwise one option per period, in order, valued by id and labelled "acronym (name)" |
| Periods.CurrentPeriodLabelsDistinguish | src/lib/api/period.ts:104-108 | two periods whose acronyms have no space share a label only when they share acronym and name |
| TeachingUnits.TeachingUnitCategoryName | src/lib/api/teaching-unit.ts:53-68 | for every string, the label of the four-entry category table, otherwise "Inconnu" |
| TeachingUnits.CategoryLabelsDistinct | src/lib/api/teaching-unit.ts:53-68 | the four categories have four distinct labels, none of them the fallback |
| TeachingUnits.TeachingUnitsAsOptions | src/lib/api/teaching-unit.ts:70-77 | undefined for undefined; otherwise one option per unit, in order, valued by id and labelled "name (code)" |
| Courses.CoursesAsOptions | src/lib/api/course.ts:47-51 | undefined for undefined; otherwise one {id, name} option per course, in order |
| Courses.CourseTypeName | src/lib/api/course.ts:63-76 | for every string, the label of the three-entry course-type table, otherwise "Inconnu" |
| Courses.CourseTypeOptionsAgree | src/lib/api/course.ts:54-76 | three options; each label is the labeler's label for its value |
| Courses.CourseTypeOptionsCover | src/lib/api/course.ts:54-61 | each course type appears exactly once |
| DepartmentPrograms.InProgram | src/lib/api/department-program.ts:60-62 | undefined without a programme list; otherwise true iff some programme course refers to a catalogue course with that id |
| DepartmentPrograms.NullCourseDisablesNothing | src/lib/api/department-program.ts:61 | a programme course with a null catalogue course changes no flag |
| DepartmentPrograms.CoursesAsOptionsWithDisabled | src/lib/api/department-program.ts:55-65 | undefined for undefined courses; otherwise one option per course, in order, with id, name and the programme-membership flag |
| TestCourses.TestCoursesAsOptions | src/lib/api/test-course.ts:49-53 | undefined for undefined; otherwise one {id, name} option per course, in order |
| TestCourses.TestCoursesByFacAsOptions | src/lib/api/test-course.ts:55-61 | undefined for undefined; otherwise a subsequence of all the options, one per course of the faculty |
| TestCourses.ByFacultyMembers | src/lib/api/test-course.ts:55-61 | the options are those of the faculty's courses, in order, one per such course; every option comes from a course of that faculty, and every course of that faculty has its option |
| Teachers.Rendered | src/lib/api/teacher.ts:78 | a template literal renders a null name as "null" |
| Teachers.TeacherLabelParts | src/lib/api/teacher.ts:78 | the label starts with the first name, or "null", and ends with "(matricule)" |
| Teachers.TeachersAsOptions | src/lib/api/teacher.ts:74-82 | undefined for undefined; otherwise one option per teacher, in order, valued by id, labelled "first last surname (matricule)", disabled exactly when the account is inactive |
| CoursesPage.CheckPeriodInEnrollments | src/app/app/courses/page.tsx:183-189 | the first enrollment whose period has the id, or undefined when there is none or no list |
| CoursesPage.OpenedPeriods | src/app/app/courses/page.tsx:191-196 | undefined for undefined; otherwise the periods in progress or finished, in input order (a subsequence), one per such position; with `Seqs.FilterDetermined` this fixes the list |
| CoursesPage.PeriodListItem | src/app/app/courses/page.tsx:66-141 | eye button iff the enrollment is validated; "S'inscrire" iff no enrollment and the period is not finished; unregister menu iff an enrollment and the period is not finished; the tag names and colours the enrollment's status, or else the period's |
| CoursesPage.PeriodList | src/app/app/courses/page.tsx:243-249 | one item per opened period, in order, matched with its enrollment |
| CoursesPage.ListedItemRules | src/app/app/courses/page.tsx:66-196 | on a listed period, "S'inscrire" shows iff there is no enrollment and the period is in progress; the button and the menu never show together, and one of them shows iff the period is in progress |
| CoursesPage.ViewCoursesNeedsEnrollment | src/app/app/courses/page.tsx:66-106 | the eye button never shows beside "S'inscrire" |
| ProgramsPage.CountCredits | src/app/app/programs/page.tsx:83-85 | 0 for undefined; otherwise the sum of the credit counts, where null counts 0 |
| ProgramsPage.CountCreditsAppend | src/app/app/programs/page.tsx:84 | the empty list gives 0; appending a programme adds its credits, or nothing when they are null |
| ProgramsPage.CountCreditsPermutation | src/app/app/programs/page.tsx:84 | the total does not depend on the order of the programmes |
| ProgramsPage.CountCreditsNonNegative | src/app/app/programs/page.tsx:84 | with no negative credit count, the total is not negative |
| YearSelector.NextPercent | src/components/yearSelector.tsx:65-68 | p + 5, or 100 when p + 5 exceeds 150 |
| YearSelector.NextPercentValid | src/components/yearSelector.tsx:33-68 | a tick keeps the percent a multiple of 5 within [−50, 150] |
| YearSelector.NextPercentStaysHigh | src/components/yearSelector.tsx:65-68 | from [100, 150] a tick stays in [100, 150] |
| YearSelector.WrapsAtTop | src/components/yearSelector.tsx:65-68 | 150 goes to 100 |
| YearSelector.TicksValid | src/components/yearSelector.tsx:33-68 | any number of ticks keeps the percent valid |
| YearSelector.TicksStayHigh | src/components/yearSelector.tsx:65-68 | once in [100, 150], any number of ticks stays there |
| YearSelector.TicksClimb | src/components/yearSelector.tsx:65-68 | without passing 150, n ticks add 5n |
| YearSelector.LoadingBarCycle | src/components/yearSelector.tsx:33-68 | from −50 the bar reaches 100 after 30 ticks, then cycles 100, 105, …, 150, 100 with period 11 |
| Seqs.FilterDetermined | src/lib/api/course-enrollment.ts:84-89 | `filter` is pinned down by three facts: the only order-kept selection of satisfying elements with one element per satisfying position is the filter itself |
| YearSelector.LoadingBar.constructor | src/components/yearSelector.tsx:33 | percent starts at −50, a valid state |
| YearSelector.LoadingBar.Tick | src/components/yearSelector.tsx:65-68 | the new percent is the tick of the old one; validity is kept; once at 100 or more it stays within [100, 150] |
| YearSelector.CheckYidInYears | src/components/yearSelector.tsx:50-53 | false while the enrollments are undefined; otherwise true iff no enrollment has the stored id; true for an unset id |
| YearSelector.EnrollmentsAsOptions | src/components/yearSelector.tsx:55-61 | undefined for undefined; otherwise one option per enrollment, in order, valued by id and labelled "year name (class acronym)" |
| YearSelector.MissingYearHasNoOption | src/components/yearSelector.tsx:50-61 | the stored year is flagged as missing exactly when no option has its id |

## Left out

- The asynchronous REST wrappers (get, create, update, delete) and their payload assembly are left out. They are network I/O.
- Authentication, cookies, local storage, the store and routing are left out. They belong to libraries that are not part of this model.
- React rendering, the enroll and unregister dialogs, and the `setTimeout`/`useEffect` scheduling of the year selector are left out. Only the tick rule and the page predicates are modelled.
- `percentageFormatter` and every `Intl` formatter are left out. They are locale libraries.
- Date strings are not parsed. Dates are integer millisecond timestamps, and the current time is a parameter of `Years.YearProgressPercent`.
- The quotient `daysPassed/totalDays*100` is an exact rational. IEEE rounding ahead of `Math.round` is not modelled.
- `Number(hours_completed)` is abstracted as an `Option<real>`: a number, or nothing for NaN. Credit counts are exact `real`s.
- Text.Lower: lower-cases A–Z only, not Unicode `toLowerCase`.
- `trim` removes ECMAScript's whitespace and line terminators, listed in `Text.Whitespace`.
- Utils.GetHashOfString: arithmetic is exact. Doubles compute the same value for strings up to 2^21 code units (`Utils.HashExactInDoubles`). Longer strings, where doubles would round, are not modelled.
- The descriptive texts of the class and cycle tables, and the descriptions of the payment methods, are left out. No helper reads them.
- The "current" lists passed to the options-with-disabled helpers are modelled as the sequence of their names, the only field the helpers read.
- Classes.ClassesByCycleAsOptionsWithDisabled: its contract states the option shape and the disabled rule. Which entries it keeps is stated by `Classes.ClassesByCycle` and the three `…KeepsBlock` lemmas.
- TestCourses.TestCoursesByFacAsOptions: its own contract states the subsequence of all the options and the length. That the options are those of the faculty's courses, in order, is stated by `TestCourses.ByFacultyMembers`.
- AttendanceList.AttendanceStudentStatut: keys inherited from `Object.prototype` ("toString", "constructor" and the like) are not modelled. The parameter type admits only the three statuses, and the model gives undefined for every other string.
- YearSelector.CheckYidInYears: the stored year id is an `Option<int>`. An id that `parseInt` turns into NaN matches nothing, like an unset one, and is modelled as `None`.
- The attendance thresholds some documentation mentions (75% and 50%) appear nowhere in the code, so they are not modelled.
- The attendance percentages are exact and unrounded, as in the code; the product documentation describes them as rounded.
- Years.YearProgressPercent: for an interval shorter than one day the code divides 0 by 0 and returns NaN; the model returns `None` there, which the documentation does not mention.

## Findings

| source | as written | input that shows it | evidently intended | confidence | as-written member | corrected member |
|---|---|---|---|---|---|---|
| src/lib/api/classroom.ts:56-112 | `getClassroomTypeName` has no case for "other", which `getRoomsTypeAsOptions` offers with label "Autre" | `getClassroomTypeName("other")` returns "Inconnu" | "other" is labelled "Autre", as in the option list | medium, not executed | Classrooms.OtherLabelDisagrees | Classrooms.IntendedLabelsAgree |
