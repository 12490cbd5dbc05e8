# Flask-Admin scaffolding core, modelled in Dafny

This project models the decision logic of the Flask-Admin copy vendored under
`lib/flask_admin`, and the TODO endpoints of `todo_app/apis.py`, and proves
properties of that model. Flask, WTForms, the ORMs and the datastore are
replaced by plain records, maps and sequences. A database query becomes the
log of the calls a view makes on it (module `QueryLog`).

Each core source file has one module:

- `AdminBase` (`base.py`): exposing view methods, the default view, blueprint URL rules, the menu tree and the `Admin` registry.
- `ModelBase` and `FilterArgs` (`model/base.py`): list and sortable columns, filter collection and grouping, the page count, list values, and the `flt<pos>_<idx>` URL arguments with their read-back.
- `Filters`, `SqlaFilters`, `MongoFilters`, `PeeweeFilters`: the base filters and the three backends' filter converter tables and filter operations.
- `ModelForm`, `SqlaForm`, `PeeweeForm`: converter registration, lookup along the MRO, field conversion, `get_form` field selection, and inline forms.
- `ModelFields`, `FormFields`, `MongoFields`: the inline field lists, the Select2 fields and the MongoEngine file and embedded-document fields.
- `SqlaView`, `MongoView`: column scaffolding, search set-up, the `get_list` query plan and the delete action.
- `SqlaTools`, `SqlaValidators`, `PymongoTools`, `ModelHelpers`, `Helpers`: search-term parsing, primary keys, the `Unique` validator, name prettifying and request/form helpers.
- `FileAdmin` (`contrib/fileadmin.py`): name validation, extension checks, path normalisation, the listing order and the breadcrumbs.
- `TodoApi` (`todo_app/apis.py`): insert, delete, toggle and list over an in-memory store.

The helper modules stand for Python and library behaviour the code relies on:

- `Text`: `str` operations.
- `Sorting`: the stable `sorted`.
- `PosixPath`: the `os.path` functions for POSIX paths.
- `Registry`: the tag tables that the `@converts` and `@filters.convert` decorators build.
- `FormTypes`: the WTForms field, widget and validator kinds.
- `Wrappers`: `Option` and `Result`.

Code that updates state in place is modelled as Dafny classes with `modifies` clauses. Examples are `Admin`, `MenuItem`, `BaseView`, the inline field lists, the file fields, the converters, the view classes and the TODO service. Each such method is proved against a function of its inputs and old state.

An exception the source raises becomes an `Err` result. Request globals, the session, and foreign functions become parameters; `mongoengine/tools.parse_like_term` is one example.

Two behaviours of the code that are easy to misread:

- `get_form_data` merges the form and the files with Werkzeug's `MultiDict.update`, which extends value lists. The form's values come first and the files' follow. The files do not replace the form's values.
- The order of `request.args` is that of a Python 2 dict, which is arbitrary. The filter round trip is therefore proved for every order of the encoded keys.

## Model

| member | source | states |
|---|---|---|
| `TodoApi.Loaded` | todo_app/apis.py:21-36 | the entity a request names is the stored one, or one with only the id when nothing is stored |
| `TodoApi.Message` | todo_app/apis.py:10-11 | a response carries the id, title and completed of the entity |
| `TodoApi.TodoService.TodoInsert` | todo_app/apis.py:15-19 | the store gains the title under the new id with `completed` False; the response is the stored entity |
| `TodoApi.TodoService.TodoDelete` | todo_app/apis.py:25-27 | the key is removed from the store and the loaded entity is returned |
| `TodoApi.TodoService.TodoToggle` | todo_app/apis.py:33-36 | `completed` of the loaded entity becomes `not completed` and the entity is put back |
| `TodoApi.TodoService.TodosList` | todo_app/apis.py:38-43 | every listed message is a stored todo under its own id, no id twice, and exactly `min(page size, count)` of them, where the page size is the request's `limit` or the query library's default, capped at its maximum |
| `TodoApi.PageSize` | todo_app/apis.py:38 | the page size never exceeds the library's maximum; a `limit` within the maximum is the page size, and without a `limit` the default is |
| `TodoApi.InsertSpec` | todo_app/apis.py:15-19 | insert stores the title with `completed` False, adds exactly one key and keeps every other todo |
| `TodoApi.DeleteSpec` | todo_app/apis.py:25-27 | delete removes exactly the named key, and deleting what insert added gives back the old store |
| `TodoApi.ToggleSpec` | todo_app/apis.py:33-36 | toggle flips the truthiness of `completed`, keeps the title and the other todos; toggling twice restores a todo whose `completed` was set |
| `TodoApi.ListingCoversStore` | todo_app/apis.py:38-43 | when the whole store fits in one page, the listing holds every stored todo |
| `Helpers.IsRequiredFormField` | lib/flask_admin/helpers.py:18-28 | true exactly when some validator is `DataRequired`, `Required` or `InputRequired` |
| `Helpers.IsFieldError` | lib/flask_admin/helpers.py:60-71 | true exactly when some error entry is a message rather than a nested list |
| `Helpers.FormDataMerged` | lib/flask_admin/helpers.py:31-57 | form data exists exactly for PUT or POST; it is the form when there are no files, otherwise every key of either dict with the form's values first and the files' after |
| `Helpers.ValidateFormOnSubmit` | lib/flask_admin/helpers.py:38-42 | the result is submitted-and-valid, and `validate()` is called exactly when the request is PUT or POST |
| `ModelHelpers.ReplaceChar` | lib/flask_admin/model/helpers.py:10 | same length; each `_` becomes a space and every other character is kept |
| `ModelHelpers.TitleAt` | lib/flask_admin/model/helpers.py:10 | `title()` upper-cases a letter that is first or follows a non-letter, lower-cases other letters and keeps every other character |
| `ModelHelpers.PrettifyNameAt` | lib/flask_admin/model/helpers.py:1-10 | position by position, the output is the title-casing of the input with `_` read as a space |
| `ModelHelpers.NoUnderscore` | lib/flask_admin/model/helpers.py:1-10 | the output has the input's length and no underscore |
| `ModelHelpers.Idempotent` | lib/flask_admin/model/helpers.py:1-10 | prettifying a prettified name changes nothing |
| `ModelHelpers.ExampleHelloWorld` | lib/flask_admin/model/helpers.py:5 | `hello_world` becomes `Hello World`, as the docstring says |
| `ModelHelpers.ExampleBoolField` | lib/flask_admin/model/helpers.py:1-10 | `bool_field` becomes `Bool Field` |
| `ModelHelpers.ExampleCol3` | lib/flask_admin/model/helpers.py:1-10 | a digit inside a word leaves the rest lower-case: `col3` becomes `Col3` |
| `TodoApi.TodoService.constructor` | todo_app/apis.py:7-8 | the service starts over the given datastore contents |
| `SqlaTools.LikeLiteral` | lib/flask_admin/contrib/sqla/tools.py:4-5 | a pattern without wildcards, as the `=` mode passes it, matches exactly the equal string |
| `SqlaTools.LikeAnything` | lib/flask_admin/contrib/sqla/tools.py:1-9 | the pattern `%` matches every string |
| `SqlaTools.LikePrefix` | lib/flask_admin/contrib/sqla/tools.py:2-3 | `x%` matches exactly the strings that start with `x` |
| `SqlaTools.LikeLeadingPercent` | lib/flask_admin/contrib/sqla/tools.py:6-7 | a leading `%` lets the rest of the pattern match from any position |
| `SqlaTools.SearchModes` | lib/flask_admin/contrib/sqla/tools.py:1-9 | for a term without wildcards: `^x` finds the values starting with `x`, `=x` the values equal to `x`, and a plain `x` the values containing `x`; compared case-sensitively (see Left out) |
| `SqlaTools.CaretBeforeEquals` | lib/flask_admin/contrib/sqla/tools.py:2-5 | only the first character selects the mode, `^` before `=`: `^=a` gives `=a%` |
| `SqlaTools.GetPrimaryKey` | lib/flask_admin/contrib/sqla/tools.py:12-27 | None exactly when no property has a primary-key column; otherwise the key of the first property that has one |
| `SqlaTools.FindPrimaryKey` | lib/flask_admin/contrib/sqla/tools.py:19-27 | the nested scan returns the same key as `GetPrimaryKey` |
| `SqlaTools.AnyPrimaryKey` | lib/flask_admin/contrib/sqla/tools.py:23-25 | true exactly when one of the property's columns is a primary key |
| `SqlaValidators.Matching` | lib/flask_admin/contrib/sqla/validators.py:28-30 | the selected rows are exactly the table's rows holding the value |
| `SqlaValidators.Unique.Call` | lib/flask_admin/contrib/sqla/validators.py:26-37 | no match passes, several raise `MultipleResultsFound`, one match fails unless it is the edited object; the default message is stored on the first failure that needs it |
| `SqlaValidators.UniquePassesWhenFree` | lib/flask_admin/contrib/sqla/validators.py:36-37 | when no row holds the value the validator passes |
| `SqlaValidators.MatchingOne` | lib/flask_admin/contrib/sqla/validators.py:28-30 | when exactly one row holds the value, the query selects that row alone |
| `SqlaValidators.NoneMatching` | lib/flask_admin/contrib/sqla/validators.py:28-30 | when no row holds the value the query selects nothing |
| `SqlaValidators.UniqueSingleMatch` | lib/flask_admin/contrib/sqla/validators.py:32-35 | the only row holding the value passes if it is the edited object and otherwise fails with the given message, else `Already exists.` |
| `SqlaValidators.StoredMessageReused` | lib/flask_admin/contrib/sqla/validators.py:33-35 | after the default message is stored, later calls give the same verdict as a fresh validator and keep the message |
| `PymongoTools.ParseLikeTermAsWritten` | lib/flask_admin/contrib/pymongo/tools.py:8-9 | as written: a `^` term keeps only its second character, and fails with an IndexError exactly for the bare term `^` |
| `PymongoTools.ParseLikeTerm` | lib/flask_admin/contrib/pymongo/tools.py:1-13 | corrected: a `^` term is kept whole, `=x` becomes `^x$`, anything else is kept |
| `PymongoTools.ParseLikeTermKeepsText` | lib/flask_admin/contrib/pymongo/tools.py:8-13 | no search text is lost: the pattern is the term with its marker turned into anchors |
| `PymongoTools.AsWrittenAgrees` | lib/flask_admin/contrib/pymongo/tools.py:8-9 | the code as written agrees with the corrected one exactly unless the term is a `^` term of other than two characters |
| `PymongoTools.AsWrittenDropsPrefix` | lib/flask_admin/contrib/pymongo/tools.py:8-9 | `^abc` gives `^a` as written but `^abc` corrected, and `^` alone raises |
| `SqlaValidators.Unique.constructor` | lib/flask_admin/contrib/sqla/validators.py:20-24 | the validator keeps the message it is given, or None |
| `Filters.NewFilter` | lib/flask_admin/model/filters.py:9-22 | the filter keeps the name, options and data type it was given |
| `Filters.NewBooleanFilter` | lib/flask_admin/model/filters.py:84-88 | a boolean filter ignores the options passed and always offers `('1', 'Yes'), ('0', 'No')` |
| `Filters.NewDateFilter` | lib/flask_admin/model/filters.py:98-101 | a date filter keeps name and options and uses the `datepicker` widget |
| `Filters.NewDateTimeFilter` | lib/flask_admin/model/filters.py:112-115 | a datetime filter keeps name and options and uses the `datetimepicker` widget |
| `Filters.GetOptions` | lib/flask_admin/model/filters.py:24-36 | options come back exactly when they are set and non-empty, unchanged |
| `Filters.BooleanOptionsFixed` | lib/flask_admin/model/filters.py:84-91 | a boolean filter's options are Yes/No whatever was passed, and it accepts exactly `0` and `1` |
| `Filters.OthersAcceptAll` | lib/flask_admin/model/filters.py:38-56 | every non-boolean filter accepts any value and `clean` returns it unchanged |
| `Filters.OperationNamesDistinct` | lib/flask_admin/contrib/sqla/filters.py:11-72 | the six operations have six different readable names |
| `Filters.Instantiate` | lib/flask_admin/contrib/sqla/filters.py:104-106 | one filter per operation, in order, each bound to the column with the name, options and data type given |
| `Filters.BooleanPair` | lib/flask_admin/contrib/sqla/filters.py:107-109 | an equal and a not-equal boolean filter on the column, with the name given |
| `Filters.FilterConverterBase.constructor` | lib/flask_admin/model/filters.py:141-149 | the converter map is every tagged method registered under each of its names, in `dir()` order |
| `Registry.Tag` | lib/flask_admin/model/filters.py:148-149 | registering a method adds exactly its names, each mapped to it, and keeps every other entry |
| `Registry.RegisterDomain` | lib/flask_admin/model/filters.py:144-149 | a name is registered iff it was there before or some tag lists it |
| `Registry.RegisterLast` | lib/flask_admin/model/form.py:86-90 | a name maps to the method of the last tag listing it |
| `Registry.RegisterUntagged` | lib/flask_admin/model/form.py:83-92 | a name in the initial map that no tag lists keeps its initial entry |
| `Registry.RegisterAll` | lib/flask_admin/model/form.py:86-90 | the nested registration loop builds exactly `Register(init, tagged)` |
| `ModelForm.Converts` | lib/flask_admin/model/form.py:7-11 | the tag holds the converter and exactly the names given |
| `ModelForm.FirstQualified` | lib/flask_admin/model/form.py:101-105 | the converter of the first class, in order, whose `module.Name` is registered; None iff there is none |
| `ModelForm.FirstByName` | lib/flask_admin/model/form.py:108-110 | the converter of the first class, in order, whose bare name is registered; None iff there is none |
| `ModelForm.ModelConverterBase.constructor` | lib/flask_admin/model/form.py:80-92 | keeps `use_mro` and registers every tagged method over the given converters |
| `ModelForm.ModelConverterBase.GetConverter` | lib/flask_admin/model/form.py:94-112 | None iff no searched class is registered under either name; a qualified match anywhere beats a bare-name match; only the exact type is searched without `use_mro` |
| `ModelForm.NewInlineFormAdmin` | lib/flask_admin/model/form.py:26-42 | the keyword arguments win, then the class's attributes, and each missing default is None; nothing else is added |
| `ModelForm.GetLabel` | lib/flask_admin/model/form.py:130-148 | a truthy `form_label` wins, else the view's label for the name, else None |
| `ModelForm.GetInfo` | lib/flask_admin/model/form.py:150-167 | a tuple becomes an `InlineFormAdmin` with its options, an `InlineFormAdmin` is returned as is, and a bare model class gives None |
| `SqlaFilters.SelfPairs` | lib/flask_admin/contrib/sqla/filters.py:125-129 | one `(v, v)` option per enum value, in order |
| `SqlaFilters.ConverterNames` | lib/flask_admin/contrib/sqla/filters.py:103-130 | a type name has a converter iff some `convert(...)` tag lists it: the string, numeric, Boolean, Date, DateTime and Enum names |
| `SqlaFilters.ConverterTable` | lib/flask_admin/contrib/sqla/filters.py:103-123 | each registered type name maps to the converter method whose tag lists it |
| `SqlaFilters.ConvertTable` | lib/flask_admin/contrib/sqla/filters.py:97-121 | strings get equals/not equal/contains/not contains, numbers and dates greater/smaller instead, booleans a Yes/No pair, dates their picker widget; an unknown type gives None |
| `SqlaFilters.RunTable` | lib/flask_admin/contrib/sqla/filters.py:104-121 | each converter method builds its operation list, in order, with the name, options and data type it gives |
| `SqlaFilters.EnumFilters` | lib/flask_admin/contrib/sqla/filters.py:123-130 | an Enum column gets equals and not equal; the options given win when non-empty, else the enum values as `(v, v)` pairs; it fails iff neither exists |
| `SqlaFilters.Apply` | lib/flask_admin/contrib/sqla/filters.py:31-78 | `apply` keeps the query and adds exactly one filter, the filter's criterion on its column |
| `SqlaFilters.NotLikeNegatesLike` | lib/flask_admin/contrib/sqla/filters.py:47-62 | not-contains holds for a row iff contains does not, on the same `ilike` pattern |
| `MongoFilters.ConverterNames` | lib/flask_admin/contrib/mongoengine/filters.py:110-130 | a field type has a converter iff some tag lists it: StringField, the numeric fields, BooleanField, DateField, DateTimeField |
| `MongoFilters.ConvertTable` | lib/flask_admin/contrib/mongoengine/filters.py:104-130 | what `convert` returns for each field type; every filter is bound to the field with the name given; None iff the type is unregistered |
| `MongoFilters.RunTable` | lib/flask_admin/contrib/mongoengine/filters.py:110-130 | each converter method builds its operation list, in order, on the field with the name given |
| `MongoFilters.Apply` | lib/flask_admin/contrib/mongoengine/filters.py:30-96 | `apply` keeps the query and adds exactly one keyword filter |
| `MongoFilters.KeywordOperators` | lib/flask_admin/contrib/mongoengine/filters.py:30-83 | every key starts with the field name; the suffix is empty, `__ne`, `__gt`, `__lt`, `__<term>` or `__not__<term>` by operation, so the operations are told apart |
| `MongoFilters.BooleanKeywords` | lib/flask_admin/contrib/mongoengine/filters.py:87-96 | boolean filters compare the field with `value == '1'` and its negation, never the same value |
| `PeeweeFilters.ConverterNames` | lib/flask_admin/contrib/peewee/filters.py:100-120 | a field type has a converter iff some tag lists it: CharField, TextField, the numeric fields, BooleanField, DateField, DateTimeField |
| `PeeweeFilters.ConvertTable` | lib/flask_admin/contrib/peewee/filters.py:94-120 | what `convert` returns for each field type; every filter is bound to the column with the name given; None iff the type is unregistered |
| `PeeweeFilters.RunTable` | lib/flask_admin/contrib/peewee/filters.py:100-120 | each converter method builds its operation list, in order, on the column with the name given |
| `PeeweeFilters.Apply` | lib/flask_admin/contrib/peewee/filters.py:30-77 | `apply` keeps the query and adds exactly one filter |
| `PeeweeFilters.NotLikeNegatesLike` | lib/flask_admin/contrib/peewee/filters.py:46-61 | not-contains holds for a row iff contains does not, on the same `**` term |
| `ModelFields.DeleteKey` | lib/flask_admin/model/fields.py:39 | the delete key is `del-` followed by the row's id |
| `ModelFields.DeleteKeyDistinguishes` | lib/flask_admin/model/fields.py:39-40 | two rows share a delete key iff they share an id |
| `ModelFields.InlineFieldList.constructor` | lib/flask_admin/model/fields.py:12-13 | the list holds the rows it is built with |
| `ModelFields.Existing` | lib/flask_admin/model/fields.py:48-52 | an attribute that cannot be iterated counts as an empty list |
| `ModelFields.Candidate` | lib/flask_admin/model/fields.py:54 | row `i` is paired with the `i`-th existing value while there is one, with None after that |
| `ModelFields.DeletedCount` | lib/flask_admin/model/fields.py:44-45 | no more rows are deleted than there are rows |
| `ModelFields.InlineFieldList.Rows` | lib/flask_admin/model/fields.py:44-45 | one row per entry, in order, with its id and its delete flag (False when never set) |
| `ModelFields.InlineFieldList.Process` | lib/flask_admin/model/fields.py:33-42 | the entries become those the base `process` rebuilt, which are a parameter; with form data, every entry is flagged for deletion iff its `del-<id>` key was submitted; empty form data changes no flag |
| `ModelFields.InlineFieldList.PopulateObj` | lib/flask_admin/model/fields.py:47-65 | the attribute becomes the values of the kept rows, in row order, each built from the row's candidate value |
| `ModelFields.PopulatedLength` | lib/flask_admin/model/fields.py:57-63 | the new list has one value per kept row: the row count minus the deleted rows |
| `ModelFields.PopulatedKeepsPositions` | lib/flask_admin/model/fields.py:54-63 | with no deletion, the `i`-th value is built from the `i`-th existing value, or None past its end |
| `ModelFields.AllDeletedEmpties` | lib/flask_admin/model/fields.py:57-65 | deleting every row leaves the attribute an empty list, whatever it held |
| `ModelFields.NotIterableAsEmpty` | lib/flask_admin/model/fields.py:49-52 | a non-iterable attribute gives the same new list as an empty one |
| `ModelFields.InlineModelFormField.constructor` | lib/flask_admin/model/fields.py:77-80 | the field keeps its subfields and the primary key name |
| `ModelFields.InlineModelFormField.GetPk` | lib/flask_admin/model/fields.py:82-83 | the data of a subfield named as the primary key; an error iff there is no such subfield |
| `ModelFields.FieldData` | lib/flask_admin/model/fields.py:83 | a subfield's data when one of that name exists, an error iff none does |
| `ModelFields.InlineModelFormField.PopulateObj` | lib/flask_admin/model/fields.py:85-88 | every subfield except the primary key is copied onto the object, in order |
| `ModelFields.CopyFieldsKeys` | lib/flask_admin/model/fields.py:85-88 | the primary key attribute is never written; any other attribute exists afterwards iff it did before or a subfield carries it |
| `ModelFields.CopyFieldsLastWins` | lib/flask_admin/model/fields.py:86-88 | the last subfield of a name other than the primary key decides that attribute's value |
| `FormFields.BlankText` | lib/flask_admin/form/fields.py:77 | the blank caption is never empty: the given text when non-empty, else a single space |
| `FormFields.ChoiceList` | lib/flask_admin/form/fields.py:83-84 | one triple per choice, in order, selected iff its coerced value is the data; an error iff some value fails to coerce |
| `FormFields.Select2Field.constructor` | lib/flask_admin/form/fields.py:71-77 | keeps choices, coercion and `allow_blank`; the blank caption defaults to a space; no data yet |
| `FormFields.Select2Field.IterChoices` | lib/flask_admin/form/fields.py:79-84 | with `allow_blank`, first `__None` selected iff there is no data; then each choice, in order, selected iff its coerced value equals the data |
| `FormFields.Select2Field.ProcessData` | lib/flask_admin/form/fields.py:86-93 | None stays None; otherwise the coerced value, or None when coercion raises ValueError or TypeError |
| `FormFields.Select2Field.ProcessFormdata` | lib/flask_admin/form/fields.py:95-103 | no values keep the data; `__None` clears it; otherwise the first value coerced, and a ValueError becomes "Invalid Choice" with the data kept |
| `FormFields.SubmittedChoiceSelected` | lib/flask_admin/form/fields.py:79-103 | submitting a listed value selects exactly the choices whose values coerce to the same datum |
| `FormFields.PreValidateAccepts` | lib/flask_admin/form/fields.py:105-108 | with blanks allowed a `__None` submission passes; with the default coercion any other value passes iff it is listed |
| `FormFields.StrippedNonEmpty` | lib/flask_admin/form/fields.py:128 | never more tags than parts |
| `FormFields.Select2TagsField.constructor` | lib/flask_admin/form/fields.py:117-124 | keeps `save_as_list` and the data |
| `FormFields.Select2TagsField.ProcessFormdata` | lib/flask_admin/form/fields.py:126-130 | with `save_as_list` the first value split at commas, stripped, blanks dropped; otherwise the first value as is; an empty list raises IndexError and keeps the data |
| `FormFields.ParsedTagsClean` | lib/flask_admin/form/fields.py:128 | every parsed tag is non-empty with no surrounding whitespace |
| `FormFields.TagsRoundTrip` | lib/flask_admin/form/fields.py:126-133 | showing a tag list joined with `', '` and parsing it back gives the same list, when each tag is non-empty, unpadded and comma-free |
| `ModelBase.ColumnName` | lib/flask_admin/model/base.py:505-515 | the configured label when the field has one, else the prettified field name |
| `ModelBase.Without` | lib/flask_admin/model/base.py:529-530 | a column is kept iff it is listed and not excluded; never longer than the list |
| `ModelBase.WithoutAppend` | lib/flask_admin/model/base.py:530 | excluding columns keeps their order: it distributes over concatenation |
| `ModelBase.WithoutNothing` | lib/flask_admin/model/base.py:529-530 | a list with no excluded column is kept whole |
| `ModelBase.Labelled` | lib/flask_admin/model/base.py:532 | one `(name, label)` pair per column, in order |
| `ModelBase.ListColumns` | lib/flask_admin/model/base.py:517-532 | an explicit `column_list` is used as is; otherwise the scaffolded columns minus the excluded ones, each with its label |
| `ModelBase.SortableFrom` | lib/flask_admin/model/base.py:555-563 | the sortable names are exactly the names listed |
| `ModelBase.SortableLast` | lib/flask_admin/model/base.py:557-561 | a name maps to the field of the last entry naming it, or to itself for a bare name |
| `ModelBase.SortableColumns` | lib/flask_admin/model/base.py:544-563 | the scaffolded map when no list is configured, else the map built from the list |
| `ModelBase.ColumnByIdx` | lib/flask_admin/model/base.py:679-686 | None iff the index is missing, negative or past the end; else that column |
| `ModelBase.DefaultOrder` | lib/flask_admin/model/base.py:688-698 | a tuple is returned as is, a non-empty bare name sorts ascending, anything falsy gives None |
| `ModelBase.NumPages` | lib/flask_admin/model/base.py:989-991 | the fewest pages of `page_size` rows that hold all `count` rows |
| `ModelBase.ChoicesMap` | lib/flask_admin/model/base.py:446-450 | the keys are the choice values, and a value's label is that of its last pair |
| `ModelBase.ListValue` | lib/flask_admin/model/base.py:943-968 | a column formatter wins; else with choices the non-empty label or the raw value; else the type formatter's output, else the raw value |
| `ModelBase.CollectFilters` | lib/flask_admin/model/base.py:600-612 | fails iff some field name scaffolds no filter; otherwise at least one filter per entry |
| `ModelBase.Objects` | lib/flask_admin/model/base.py:604-605 | the filter objects of the entries, in order |
| `ModelBase.CollectFiltersObjects` | lib/flask_admin/model/base.py:603-605 | entries that are all filter objects are returned as they are, in order |
| `ModelBase.GetFilters` | lib/flask_admin/model/base.py:593-614 | None for an empty `column_filters`; else the loop's collection equals the filters collected entry by entry, or the same "Unsupported filter type" error |
| `ModelBase.EntriesFacts` | lib/flask_admin/model/base.py:468-476 | a group's entries are exactly the filters of its name, each once, by increasing index, with their operation names |
| `ModelBase.GroupNamesFacts` | lib/flask_admin/model/base.py:468-472 | group names are distinct and are exactly the names of the filters seen |
| `ModelBase.EntriesOfUnseen` | lib/flask_admin/model/base.py:469-476 | a name no filter carries has no entries |
| `ModelBase.FilterTypes` | lib/flask_admin/model/base.py:478-480 | an index is present iff that filter has a non-empty data type |
| `ModelBase.GroupAt` | lib/flask_admin/model/base.py:465-476 | group `k` is the `k`-th new name with all its entries |
| `ModelBase.GroupsDistinct` | lib/flask_admin/model/base.py:469-472 | no name has two groups |
| `ModelBase.GroupsCover` | lib/flask_admin/model/base.py:468-476 | every filter is in the group of its name |
| `ModelBase.GroupsSound` | lib/flask_admin/model/base.py:468-476 | a group holds only filters of its name, by increasing index |
| `ModelBase.GroupsFirstAppearance` | lib/flask_admin/model/base.py:469-472 | groups come in the order their names first appear |
| `ModelBase.DictStep` | lib/flask_admin/model/base.py:469-476 | one more filter appends its entry to its name's group, creating the group when the name is new |
| `ModelBase.GroupsThroughDict` | lib/flask_admin/model/base.py:465-476 | reading the group names through the dictionary the loop builds gives the groups |
| `ModelBase.FilterCache.constructor` | lib/flask_admin/model/base.py:455 | no filters, groups or types yet |
| `ModelBase.FilterCache.Refresh` | lib/flask_admin/model/base.py:455-483 | no filters leave groups and types None; otherwise the groups are the filters grouped by name in order of first appearance, and the types those of `_filter_types` |
| `FilterArgs.IntString` | lib/flask_admin/model/base.py:915 | a number written with `'%d'` is non-empty and holds no `_` |
| `FilterArgs.ParseIntString` | lib/flask_admin/model/base.py:867-868 | `int` reads back the number `'%d'` wrote |
| `FilterArgs.FindAfterPrefix` | lib/flask_admin/model/base.py:861-862 | the first `_` of a `flt...` key is not inside the `flt` prefix |
| `FilterArgs.ParseArg` | lib/flask_admin/model/base.py:860-878 | an argument contributes only when its key starts with `flt` and its index names one of the filters |
| `FilterArgs.ParseFilterKey` | lib/flask_admin/model/base.py:860-878 | a key `flt<i>_<idx>` reads back as `(i, (idx, value))` iff `idx` names a filter that accepts the value |
| `FilterArgs.KeptPermutation` | lib/flask_admin/model/base.py:860-878 | which filters are kept does not depend on the order of the query arguments |
| `FilterArgs.KeptOthers` | lib/flask_admin/model/base.py:861 | arguments whose key does not start with `flt` contribute nothing |
| `FilterArgs.EncodeFilters` | lib/flask_admin/model/base.py:913-916 | one `flt<i>_<idx>` argument per active filter, in order, carrying its value |
| `FilterArgs.Indexed` | lib/flask_admin/model/base.py:914 | each active filter tagged with its position |
| `FilterArgs.KeptEncoded` | lib/flask_admin/model/base.py:860-878 | decoding the written filter arguments keeps every one, tagged with its position |
| `FilterArgs.SortedUnique` | lib/flask_admin/model/base.py:880 | with distinct positions, the only ordering of the kept filters sorted by position is the written one |
| `FilterArgs.SortedByPos` | lib/flask_admin/model/base.py:880 | sorting by position keeps every element and orders them by position |
| `FilterArgs.Values` | lib/flask_admin/model/base.py:880 | the `(idx, value)` part of each sorted entry, in order |
| `FilterArgs.GetFilterArgs` | lib/flask_admin/model/base.py:857-882 | the loop's result is the decoded filters: None without filters, else the accepted arguments sorted by position |
| `FilterArgs.PlainArgs` | lib/flask_admin/model/base.py:905-911 | none of the page, sort, direction and search arguments looks like a filter key |
| `FilterArgs.KeptUrl` | lib/flask_admin/model/base.py:860-918 | the entries kept from a URL `_get_url` built are exactly its filters, tagged with their positions |
| `FilterArgs.FiltersRoundTrip` | lib/flask_admin/model/base.py:857-918 | decoding what `_get_url` wrote gives back the active filters, whatever the argument order |
| `FilterArgs.Get` | lib/flask_admin/model/base.py:851-854 | finds a value only under that key, and None iff no argument has the key |
| `FilterArgs.GetUnique` | lib/flask_admin/model/base.py:851-854 | when every argument with a key carries the same value, `get` finds that value |
| `FilterArgs.NameInjective` | lib/flask_admin/model/base.py:911 | the page, sort, desc and search keys are different names |
| `FilterArgs.Slot` | lib/flask_admin/model/base.py:911 | a keyword is written under its name exactly when it has a value |
| `FilterArgs.PlainKeyOnce` | lib/flask_admin/model/base.py:905-911 | each plain key is written at most once, with the value it was given, and only when that value is not None |
| `FilterArgs.UrlKey` | lib/flask_admin/model/base.py:905-918 | in a whole list URL each plain key carries only the value written for it |
| `FilterArgs.ReadIntBack` | lib/flask_admin/model/base.py:851-853 | `get(key, default, type=int)` of a value written with `'%d'` is the number written, else the default |
| `FilterArgs.ReadBack` | lib/flask_admin/model/base.py:851-918 | `get` on a URL `_get_url` built finds the value written under each plain key, in any argument order |
| `FilterArgs.PlainRoundTrip` | lib/flask_admin/model/base.py:851-911 | page, sort column and direction come back as written; an empty search comes back as None |
| `FilterArgs.UrlRoundTrip` | lib/flask_admin/model/base.py:847-918 | `_get_extra_args` on a URL `_get_url` built gives back the page, sort, direction, search and filters |
| `AdminBase.ExposedFunction.constructor` | lib/flask_admin/base.py:20-21 | a function not yet exposed has no url rules |
| `AdminBase.ExposedFunction.Expose` | lib/flask_admin/base.py:10-24 | exposing appends `(url, methods)` and keeps every earlier registration; url defaults to `/` and methods to `('GET',)` |
| `AdminBase.MemberRules` | lib/flask_admin/base.py:84-85 | one `(url, name, methods)` rule per registration of the attribute, in order |
| `AdminBase.DefaultView` | lib/flask_admin/base.py:77-88 | None iff no attribute is exposed at `/`; else the last one, in `dir()` order, that is |
| `AdminBase.GatherExposed` | lib/flask_admin/base.py:72-91 | the metaclass loop collects every attribute's rules in `dir()` order and the default view above |
| `AdminBase.SpacedFromFacts` | lib/flask_admin/base.py:263 | inserting spaces changes nothing else, and adds one space per capital after the first character |
| `AdminBase.UnspacedAppend` | lib/flask_admin/base.py:263 | removing the inserted spaces distributes over concatenation |
| `AdminBase.PrettifyClassName` | lib/flask_admin/base.py:256-263 | with the inserted spaces removed the name is unchanged; the first character stays first; one space per capital after it |
| `AdminBase.PrettifyPlaces` | lib/flask_admin/base.py:256-263 | the i-th character of the name lands at `Slot(name, i)`; the next character lands two places further with a space between exactly when it is a capital following a character other than a newline, and one place further otherwise; the result ends with the last character |
| `AdminBase.PrettifySuperExample` | lib/flask_admin/base.py:256-263 | `MySuperClass` becomes `My Super Class` |
| `AdminBase.PrettifyExample` | lib/flask_admin/base.py:258 | `MyClass` becomes `My Class` |
| `AdminBase.SpacedExample` | lib/flask_admin/base.py:263 | the capital `C` after `My` gets a space before it |
| `AdminBase.SpacedNoCapitals` | lib/flask_admin/base.py:263 | a name without capitals after its first character is unchanged |
| `AdminBase.BlueprintUrl` | lib/flask_admin/base.py:195-210 | never `/`: an absolute url is kept, a relative one goes under the admin's url, a missing one comes from the endpoint (the index view at the site root gets None) |
| `AdminBase.BaseView.constructor` | lib/flask_admin/base.py:140-178 | keeps every argument, with no admin and no blueprint yet; only a class with a default view can be instantiated |
| `AdminBase.BaseView.CreateBlueprint` | lib/flask_admin/base.py:180-230 | the endpoint defaults to the lower-cased class name, the url as `BlueprintUrl` says, the static path to the admin's, the name to the prettified class name; the blueprint carries every exposed rule |
| `AdminBase.NewView` | lib/flask_admin/base.py:177-178 | instantiating a view class fails iff it has no default view |
| `AdminBase.NewIndexView` | lib/flask_admin/base.py:332-340 | a new index view with the endpoint and url given |
| `AdminBase.IndexViewFor` | lib/flask_admin/base.py:469 | the index view given, else a new `AdminIndexView` |
| `AdminBase.MenuItem.constructor` | lib/flask_admin/base.py:351-360 | a menu item with no children; its url is its view's, or None for a category |
| `AdminBase.MenuItem.AddChild` | lib/flask_admin/base.py:362-364 | the child is appended and its url joins the child urls |
| `AdminBase.MenuItem.GetChildren` | lib/flask_admin/base.py:397-398 | exactly the children that are accessible and visible (`AdminBase.ShownSplit` states that their order is kept) |
| `AdminBase.ShownSplit` | lib/flask_admin/base.py:397-398 | the filter keeps the children's order: splitting the children anywhere splits the shown list at the same place, and a single child is shown exactly when it is accessible and visible |
| `AdminBase.Shown` | lib/flask_admin/base.py:398 | keeps exactly the accessible and visible items |
| `AdminBase.App.constructor` | lib/flask_admin/base.py:577-580 | an application with no admins and no blueprints |
| `AdminBase.Conflict` | lib/flask_admin/base.py:582-589 | an error iff some registered admin has the same endpoint, or the same url and subdomain |
| `AdminBase.RegisteredTwice` | lib/flask_admin/base.py:582-589 | an admin already registered cannot be registered again |
| `AdminBase.Admin.constructor` | lib/flask_admin/base.py:456-474 | name defaults to `Admin`; endpoint and url default to the index view's; empty views and menu |
| `AdminBase.Admin.LocaleSelector` | lib/flask_admin/base.py:536-539 | the first selector is installed; a second call raises and keeps the first |
| `AdminBase.Admin.AddViewToMenu` | lib/flask_admin/base.py:541-558 | no category: a new top-level item; a category: a child of the category's item, which is created and appended to the menu on first use |
| `AdminBase.Admin.InitExtension` | lib/flask_admin/base.py:576-592 | the admin joins the application's admins iff no conflict; otherwise they are unchanged |
| `AdminBase.Admin.AddView` | lib/flask_admin/base.py:486-499 | the view is appended; with an application its blueprint is registered and it is put in the menu |
| `AdminBase.NewAdmin` | lib/flask_admin/base.py:424-484 | a new admin whose only view is its index view; with an application it registers, or fails with the conflict and changes no admin list |
| `FileAdmin.ValidateName` | lib/flask_admin/contrib/fileadmin.py:29-33 | passes iff the name pattern as written matches, else "Invalid directory name" |
| `FileAdmin.ValidateNameFixed` | lib/flask_admin/contrib/fileadmin.py:29-33 | passes iff the name is valid: not a reserved device name or dot-name, with no control or forbidden character, matched to its very end |
| `FileAdmin.NameRegexAcceptsTrailingNewline` | lib/flask_admin/contrib/fileadmin.py:29 | the pattern as written accepts `a\n`, which is not a valid name |
| `FileAdmin.ValidNameAgrees` | lib/flask_admin/contrib/fileadmin.py:29 | a name is valid iff the pattern matches it and it does not end in a newline |
| `FileAdmin.ValidNameIsOneComponent` | lib/flask_admin/contrib/fileadmin.py:29 | a valid name holds no `/`: it is a single path component |
| `FileAdmin.FileExtension` | lib/flask_admin/contrib/fileadmin.py:233-236 | the extension holds no dot and no separator |
| `FileAdmin.ExtensionOfName` | lib/flask_admin/contrib/fileadmin.py:233-236 | a file named `stem.ext` has the extension `ext`, lower-cased |
| `FileAdmin.DottedExtension` | lib/flask_admin/contrib/fileadmin.py:233-236 | the extension is the lower-cased `splitext` suffix without its dot |
| `FileAdmin.AllowedByLowerExtension` | lib/flask_admin/contrib/fileadmin.py:224-260 | a file may be uploaded iff no extensions are configured or its lower-cased extension is allowed; edited iff that extension is editable |
| `FileAdmin.FileActionAllowed` | lib/flask_admin/contrib/fileadmin.py:343-347 | every action is allowed except `delete` when deleting is off |
| `FileAdmin.FileAdmin.constructor` | lib/flask_admin/contrib/fileadmin.py:184-191 | the extension sets hold exactly the configured extensions |
| `FileAdmin.Normalize` | lib/flask_admin/contrib/fileadmin.py:318-341 | no path means the base itself; otherwise the normalised join, and 404 when it is outside the folder or does not exist |
| `FileAdmin.InFolderPrefixEscape` | lib/flask_admin/contrib/fileadmin.py:262-271 | as written, from base `/a` the path `../ab` is accepted although `/ab` is outside `/a`; the corrected test refuses it |
| `FileAdmin.InFolderComponents` | lib/flask_admin/contrib/fileadmin.py:262-271 | with the corrected test, the base's components lead the directory's components |
| `FileAdmin.NormSibling` | lib/flask_admin/contrib/fileadmin.py:333 | joining `/a` and `../n` normalises to `/n` |
| `FileAdmin.ParentItem` | lib/flask_admin/contrib/fileadmin.py:429-434 | the `..` row is a directory of size 0, with no path iff the parent normalises to `.` |
| `FileAdmin.NormParent` | lib/flask_admin/contrib/fileadmin.py:430 | `normpath(join(p, '..'))` drops the last component, or gives `.` for a single one |
| `FileAdmin.ParentOfPath` | lib/flask_admin/contrib/fileadmin.py:429-434 | the `..` row leads one component up, and to the base (None) from a top-level directory |
| `FileAdmin.Visible` | lib/flask_admin/contrib/fileadmin.py:436-441 | never more rows than entries |
| `FileAdmin.VisibleMembers` | lib/flask_admin/contrib/fileadmin.py:436-441 | the rows are exactly those of the entries whose relative path the user may see |
| `FileAdmin.ListingOrder` | lib/flask_admin/contrib/fileadmin.py:443-447 | the sorted listing holds the same rows, directories first, and by name within directories and within files |
| `FileAdmin.Crumbs` | lib/flask_admin/contrib/fileadmin.py:450-454 | one breadcrumb per component |
| `FileAdmin.CrumbsSpec` | lib/flask_admin/contrib/fileadmin.py:450-454 | the `k`-th breadcrumb names the `k`-th component and joins the first `k + 1` |
| `FileAdmin.CrumbPath` | lib/flask_admin/contrib/fileadmin.py:452-454 | each breadcrumb of a clean path links a prefix of the path |
| `FileAdmin.BreadcrumbsLeadToPath` | lib/flask_admin/contrib/fileadmin.py:450-454 | one breadcrumb per component, each linking a prefix of the path, the last linking the path itself |
| `FileAdmin.Breadcrumbs` | lib/flask_admin/contrib/fileadmin.py:450-454 | the loop builds exactly those breadcrumbs |
| `FileAdmin.CollectItems` | lib/flask_admin/contrib/fileadmin.py:426-441 | the `..` row unless the directory is the base, then the visible entries in `listdir` order |
| `FileAdmin.ParentRow` | lib/flask_admin/contrib/fileadmin.py:429-434 | the `..` row of the path |
| `FileAdmin.FileAdmin.Index` | lib/flask_admin/contrib/fileadmin.py:411-466 | 404 iff the path does not normalise; permission denied iff the user may not see it; else the sorted rows and the breadcrumbs of the path |
| `SqlaView.ListedKeys` | lib/flask_admin/contrib/sqla/view.py:299-322 | never more columns than mapper properties |
| `SqlaView.ListedKeysMembership` | lib/flask_admin/contrib/sqla/view.py:305-320 | a key is listed iff some property qualifies: a many-to-one relation (any relation when all are shown), or a column without foreign keys that is not a hidden primary key |
| `SqlaView.ListedKeysAppend` | lib/flask_admin/contrib/sqla/view.py:305-322 | the listed columns keep mapper order |
| `SqlaView.SortableMapKeys` | lib/flask_admin/contrib/sqla/view.py:324-349 | a key is sortable iff some single-column property without foreign keys, not a hidden primary key, has it |
| `SqlaView.SortableMapLast` | lib/flask_admin/contrib/sqla/view.py:331-347 | a sortable key maps to the column of the last qualifying property with that key |
| `SqlaView.ModelView.ScaffoldListColumns` | lib/flask_admin/contrib/sqla/view.py:299-322 | the loop lists exactly the qualifying keys, in mapper order |
| `SqlaView.ModelView.ScaffoldSortableColumns` | lib/flask_admin/contrib/sqla/view.py:324-349 | the loop builds exactly the sortable map above |
| `SqlaView.ColumnsForField` | lib/flask_admin/contrib/sqla/view.py:351-366 | succeeds iff the field names a column attribute, and then with at least one column |
| `SqlaView.SearchColumnsSpec` | lib/flask_admin/contrib/sqla/view.py:379-395 | the search set-up succeeds iff every field is a column attribute whose columns are all text; then every search column is text, at least one per field |
| `SqlaView.SearchColumnsStep` | lib/flask_admin/contrib/sqla/view.py:383-391 | a good field extends the search columns with its columns |
| `SqlaView.SearchColumnsStepErr` | lib/flask_admin/contrib/sqla/view.py:384-389 | the first failing field fails the whole set-up with its own error |
| `SqlaView.SearchColumnsErrLonger` | lib/flask_admin/contrib/sqla/view.py:383-389 | once a field fails, later fields do not change the error |
| `SqlaView.SearchJoinsSpec` | lib/flask_admin/contrib/sqla/view.py:394-395 | a table is joined for search iff a search column lives in it and the model does not map it; no table twice |
| `SqlaView.ModelView.InitSearch` | lib/flask_admin/contrib/sqla/view.py:371-397 | no searchable fields: False and nothing changes; otherwise True with the search columns and joins rebuilt, or the error of the first bad field |
| `SqlaView.ModelView.AddSearchColumns` | lib/flask_admin/contrib/sqla/view.py:384-395 | one field's columns are recorded, with their joins, iff all are text |
| `SqlaView.JoinSteps` | lib/flask_admin/contrib/sqla/view.py:678-680 | one join per table, in order |
| `SqlaView.JoinedLoads` | lib/flask_admin/contrib/sqla/view.py:720-721 | one eager load per relation, in order |
| `SqlaView.NonEmpty` | lib/flask_admin/contrib/sqla/view.py:687-689 | only non-empty terms are kept |
| `SqlaView.SearchStepsClauses` | lib/flask_admin/contrib/sqla/view.py:685-694 | one clause per non-empty term, in order: the term's pattern on any search column |
| `SqlaView.SortJoin` | lib/flask_admin/contrib/sqla/view.py:602-623 | the query is kept, or gains exactly one join at its end |
| `SqlaView.OrderByShape` | lib/flask_admin/contrib/sqla/view.py:587-635 | `_order_by` adds at most one join, then exactly the ordering asked for |
| `SqlaView.SortPlanShape` | lib/flask_admin/contrib/sqla/view.py:724-733 | the sort adds joins and exactly the requested ordering: the sortable column's, else the default order's, else none |
| `SqlaView.JoinedOnce` | lib/flask_admin/contrib/sqla/view.py:669-733 | no table is joined twice, by search, filter or sort, in the count query or the list query |
| `SqlaView.ListAfterCount` | lib/flask_admin/contrib/sqla/view.py:669-739 | the list query is the count query plus eager loads, the sort's joins and ordering, an offset of `page * page_size` when a page is given, and the limit last |
| `SqlaView.PlanTail` | lib/flask_admin/contrib/sqla/view.py:720-739 | the steps after the count are loads, joins, orderings and paging, ending in the limit, with an offset only for a page |
| `SqlaView.ActionPermission` | lib/flask_admin/contrib/sqla/view.py:833-838 | `delete` is refused without `can_delete`; every other case follows the disallowed list |
| `SqlaView.ModelView.constructor` | lib/flask_admin/contrib/sqla/view.py:252-255 | no search fields and no search joins yet |
| `SqlaView.ModelView.GetList` | lib/flask_admin/contrib/sqla/view.py:650-745 | the count query and the list query are exactly the planned ones |
| `SqlaView.SortAndPage` | lib/flask_admin/contrib/sqla/view.py:719-739 | eager loads, then the sort, then offset and limit |
| `SqlaView.ApplySearch` | lib/flask_admin/contrib/sqla/view.py:675-694 | the search joins, then one clause per non-empty term, on both queries alike |
| `SqlaView.ApplyFilters` | lib/flask_admin/contrib/sqla/view.py:697-714 | each filter's missing joins, then its criterion, on both queries alike |
| `SqlaView.JoinTables` | lib/flask_admin/contrib/sqla/view.py:706-710 | each table not joined yet is joined once and recorded |
| `SqlaView.NewModelView` | lib/flask_admin/contrib/sqla/view.py:234-274 | given the list columns, forms and filters already built, construction fails iff the search set-up fails or the model has no primary key; otherwise search is supported iff fields are searchable |
| `SqlaForm.SetDefaultLabel` | lib/flask_admin/contrib/sqla/form.py:293 | an explicit label is kept untouched; only a missing one gets the converter's default, and the validators are unchanged |
| `SqlaForm.SelfPairs` | lib/flask_admin/contrib/sqla/form.py:242 | each enum value becomes a (value, label) choice pair with itself as the label, in order |
| `SqlaForm.Apply` | lib/flask_admin/contrib/sqla/form.py:234-311 | a `conv_*` method only appends at most one constraint validator after the validators it was given and keeps an explicit label; String with enums gives a Select2 field with an AnyOf check and self-labelled choices, String without enums a text field with a Length check exactly when the length is non-zero |
| `SqlaForm.DefaultValueOf` | lib/flask_admin/contrib/sqla/form.py:184-199 | a default is passed on iff the column has a default with an argument that is callable or scalar; a callable one is passed as a callable |
| `SqlaForm.AdminModelConverter.constructor` | lib/flask_admin/contrib/sqla/form.py:27-31 | the converter keeps its view and looks converters up along the type's MRO in the table the `@converts` tags build |
| `SqlaForm.AdminModelConverter.GetLabel` | lib/flask_admin/contrib/sqla/form.py:33-53 | an explicit label wins; otherwise a non-empty `column_labels` decides alone, giving None for a name it lacks; otherwise the prettified name |
| `SqlaForm.AdminModelConverter.GetDescription` | lib/flask_admin/contrib/sqla/form.py:55-62 | an explicit description wins; otherwise there is one iff `column_descriptions` has the name, and it is that entry |
| `SqlaForm.AdminModelConverter.ConvertRelation` | lib/flask_admin/contrib/sqla/form.py:72-112 | a relation field gets Optional when the local column is nullable, else InputRequired unless many-to-many; its label comes from `_get_label`; `allow_blank` defaults to nullability; the widget defaults to single select for many-to-one and multiple select otherwise; an override always yields a field; without one the result is missing iff it is a one-to-many backref without foreign keys and backrefs are hidden, and is a single or multiple query select by direction |
| `SqlaForm.AdminModelConverter.ColumnKwargs` | lib/flask_admin/contrib/sqla/form.py:148-203 | the arguments for a shown column append exactly the validators the column calls for; on the view's own model a missing label comes from `_get_label`; the column default replaces the given one exactly when it is passed on |
| `SqlaForm.AdminModelConverter.ConvertColumn` | lib/flask_admin/contrib/sqla/form.py:138-231 | foreign keys and non-`Column` columns give no field; a primary key gives a hidden field when asked, and no field unless `form_columns` lists it; it fails iff a shown column on the own model has non-empty `form_choices` while the arguments already name choices or `allow_blank`; otherwise choices give a Select2 field with those choices and `allow_blank` equal to nullability |
| `SqlaForm.AdminModelConverter.Convert` | lib/flask_admin/contrib/sqla/form.py:114-231 | a placeholder gives back its field; a property that is neither relation nor column gives none; a multi-column property raises TypeError; a relation never raises |
| `SqlaForm.AddedCounts` | lib/flask_admin/contrib/sqla/form.py:148-203 | the validators added for a column hold exactly one Unique on its key iff it is a primary or unique key, exactly one InputRequired iff it is not nullable and not Boolean, and exactly one Optional iff it is nullable |
| `SqlaForm.ColumnValidators` | lib/flask_admin/contrib/sqla/form.py:148-231 | the finished field keeps the given validators first, and what follows holds the same Unique, InputRequired and Optional counts whatever converter runs |
| `SqlaForm.ValidatorsAfter` | lib/flask_admin/contrib/sqla/form.py:148-203 | the counts of the added validators survive any constraints a converter appends after them |
| `SqlaForm.SuffixCounts` | lib/flask_admin/contrib/sqla/form.py:228-229 | a converter that only appends constraints leaves the given prefix intact and every non-constraint count of what follows it unchanged |
| `SqlaForm.ConverterByName` | lib/flask_admin/contrib/sqla/form.py:223 | a type registered under its own name, and under no qualified MRO name, gets that converter |
| `SqlaForm.StringRegistered` | lib/flask_admin/contrib/sqla/form.py:238-239 | String and Unicode map to `conv_String` in the table the tags build, from any initial table |
| `SqlaForm.StringTagLast` | lib/flask_admin/contrib/sqla/form.py:238-311 | no converter tagged after `conv_String` claims String or Unicode |
| `SqlaForm.ConvertedByType` | lib/flask_admin/contrib/sqla/form.py:205-229 | a plain column with no override and no choices goes to the converter its type maps to, with the arguments `convert` built |
| `SqlaForm.StringColumn` | lib/flask_admin/contrib/sqla/form.py:222-246 | such a String or Unicode column is converted by `conv_String` |
| `SqlaForm.DictGet` | lib/flask_admin/contrib/sqla/form.py:368-376 | `dict(...).get(name)` is missing iff no pair has the name, and otherwise is the value of some pair with that name |
| `SqlaForm.KeyedProps` | lib/flask_admin/contrib/sqla/form.py:365 | one `(key, property)` pair per mapper property, in order |
| `SqlaForm.Find` | lib/flask_admin/contrib/sqla/form.py:370-386 | an extra field of the name wins as a placeholder; the lookup fails iff the name is neither an extra field, a property nor a model attribute; a mapped result not from an attribute is a property with that key |
| `SqlaForm.Unexcluded` | lib/flask_admin/contrib/sqla/form.py:390-391 | every pair kept is an unexcluded mapped property, and every unexcluded property is kept |
| `SqlaForm.Items` | lib/flask_admin/contrib/sqla/form.py:365-391 | with `only`, one lookup per listed name in that order; otherwise mapped properties keyed by their own key, none excluded |
| `SqlaForm.Assign` | lib/flask_admin/contrib/sqla/form.py:403 | assigning a field adds its name, puts it last, keeps the other entries and keeps names distinct |
| `SqlaForm.Remove` | lib/flask_admin/contrib/sqla/form.py:403 | removing a name drops exactly that name and keeps names distinct |
| `SqlaForm.NamesConcat` | lib/flask_admin/contrib/sqla/form.py:393-408 | the names of joined field lists are the union of their names |
| `SqlaForm.GetForm` | lib/flask_admin/contrib/sqla/form.py:329-410 | the two loops of `get_form` compute the specified form class or exception |
| `SqlaForm.FillFieldDict` | lib/flask_admin/contrib/sqla/form.py:393-403 | the property loop computes the specified field list, stopping at the first exception |
| `SqlaForm.AddExtraFields` | lib/flask_admin/contrib/sqla/form.py:405-408 | the extra-field loop computes the specified assignment sequence |
| `SqlaForm.BuildNames` | lib/flask_admin/contrib/sqla/form.py:393-403 | the loop only adds visible names, keeps every name it had and keeps names distinct |
| `SqlaForm.BuildFails` | lib/flask_admin/contrib/sqla/form.py:386-394 | a name that `find` fails on makes the whole loop raise |
| `SqlaForm.AddExtraNames` | lib/flask_admin/contrib/sqla/form.py:405-408 | after the extra fields the names are exactly the old ones plus theirs, still distinct |
| `SqlaForm.OnlyFields` | lib/flask_admin/contrib/sqla/form.py:367-403 | with `only`, every field name is listed there, none is hidden when hidden names are ignored, and none repeats |
| `SqlaForm.OnlyOrder` | lib/flask_admin/contrib/sqla/form.py:367-403 | with `only`, `get_form` fails exactly when a listed name fails; otherwise the form is named after the model and its fields are exactly the listed names that make a field, each with its field, in the order of each name's last position in `only` |
| `SqlaForm.OnlyPrefix` | lib/flask_admin/contrib/sqla/form.py:389-403 | the loop over the first k names of `only` succeeds exactly when none of them fails, and then it has collected their fields in that order |
| `SqlaForm.AssignOrdered` | lib/flask_admin/contrib/sqla/form.py:403 | `field_dict[name] = field` puts the new field last and keeps the others in the order of their last positions |
| `SqlaForm.BuildSplit` | lib/flask_admin/contrib/sqla/form.py:393-403 | the field loop over a sequence is the loop over a prefix followed by the loop over the rest, and it stops at the first exception |
| `SqlaForm.SharedAppends` | lib/flask_admin/contrib/sqla/form.py:118-188 | as written, one conversion of a shown column leaves the given `form_args` validators in the shared list followed by what it added, among them one Unique check for a primary key or unique column |
| `SqlaForm.ValidatorsPileUp` | lib/flask_admin/contrib/sqla/form.py:118-188 | as written, converting a unique column twice over the same `form_args` list leaves two more Unique checks for it than the user gave |
| `SqlaForm.OnlyUnknownName` | lib/flask_admin/contrib/sqla/form.py:370-389 | with `only`, a listed name that is no extra field, property or attribute makes `get_form` raise |
| `SqlaForm.ExtraFieldsAdded` | lib/flask_admin/contrib/sqla/form.py:405-408 | without `only`, every extra field is in the form and no name repeats |
| `SqlaForm.VisibleAdmitted` | lib/flask_admin/contrib/sqla/form.py:390-397 | without `only`, every visible item is an unexcluded property of the model |
| `SqlaForm.FieldsWithoutOnly` | lib/flask_admin/contrib/sqla/form.py:390-408 | without `only`, every field is an extra field or an unexcluded, unhidden property |
| `MongoView.ModelFields` | lib/flask_admin/contrib/mongoengine/view.py:123-133 | the model fields are a permutation of the document's fields |
| `MongoView.ModelFieldsSorted` | lib/flask_admin/contrib/mongoengine/view.py:133 | the model fields come in creation-counter order |
| `MongoView.ListedFields` | lib/flask_admin/contrib/mongoengine/view.py:152-168 | never more list columns than fields |
| `MongoView.ListedFieldsMembership` | lib/flask_admin/contrib/mongoengine/view.py:154-166 | a field is a list column iff it is one of the fields and its type qualifies |
| `MongoView.ListedFieldsSorted` | lib/flask_admin/contrib/mongoengine/view.py:152-168 | list columns keep creation-counter order |
| `MongoView.ListedExcludes` | lib/flask_admin/contrib/mongoengine/view.py:158-166 | an embedded document, or a list of them, is never a list column; an ObjectId field is one iff `column_display_pk` is set |
| `MongoView.SortableMapSpec` | lib/flask_admin/contrib/mongoengine/view.py:24-37 | a name is sortable iff some field of that name has a sortable type (ObjectId only with `column_display_pk`), and it maps to such a field of that name |
| `MongoView.FieldNamed` | lib/flask_admin/contrib/mongoengine/view.py:190 | the lookup finds a field iff one has that name, and the field it finds has it |
| `MongoView.SearchSetupSpec` | lib/flask_admin/contrib/mongoengine/view.py:94-96 | search set-up succeeds iff every name is a field of a text type, and then appends exactly those fields in order; a failure appends fewer fields than there are names; every appended field is of a text type |
| `MongoView.SearchSetupStops` | lib/flask_admin/contrib/mongoengine/view.py:187-202 | the first name that fails decides the set-up's error, and nothing after it is appended |
| `MongoView.SearchCriteria` | lib/flask_admin/contrib/mongoengine/view.py:304-311 | one `<field>__<op>` criterion per search field, in order |
| `MongoView.SortKey` | lib/flask_admin/contrib/mongoengine/view.py:320 | a descending key is the column with a `-` in front; an ascending key is the column itself |
| `MongoView.SortKeyRoundTrip` | lib/flask_admin/contrib/mongoengine/view.py:320-325 | the column and its direction are read back from the sort key when the column does not start with `-` |
| `MongoView.FilterStepsShape` | lib/flask_admin/contrib/mongoengine/view.py:289-292 | each filter argument adds exactly one filter step, in argument order, built by the chosen filter |
| `MongoView.ListAfterCount` | lib/flask_admin/contrib/mongoengine/view.py:315-331 | the list query is the count query, then one ordering when a column or default order is set (by the column first), then a skip of page times page size exactly when a page is given, then the page-size limit |
| `MongoView.SearchNamesEveryField` | lib/flask_admin/contrib/mongoengine/view.py:295-313 | a non-empty search adds one filter that ORs one criterion per search field |
| `MongoView.ActionPermission` | lib/flask_admin/contrib/mongoengine/view.py:450-455 | delete is refused without `can_delete`; otherwise an action is allowed iff it is not disallowed |
| `MongoView.InBulk` | lib/flask_admin/contrib/mongoengine/view.py:465 | `in_bulk` holds exactly the stored documents among the ids |
| `MongoView.Collection.constructor` | lib/flask_admin/contrib/mongoengine/view.py:465 | a collection starts with the given documents |
| `MongoView.ActionDelete` | lib/flask_admin/contrib/mongoengine/view.py:460-477 | a malformed id fails the action with nothing deleted; otherwise every stored document among the ids is deleted unless its deletion fails, and the count is the number deleted |
| `MongoView.FirstInvalid` | lib/flask_admin/contrib/mongoengine/view.py:464 | finds no position iff every id is an ObjectId, and otherwise a position whose id is not |
| `MongoView.DeleteEach` | lib/flask_admin/contrib/mongoengine/view.py:406-425 | each document is removed exactly when its deletion does not fail, and the count is how many were removed |
| `MongoView.ModelView.constructor` | lib/flask_admin/contrib/mongoengine/view.py:101-121 | a new view has no search fields and search is not yet supported |
| `MongoView.ModelView.ScaffoldListColumns` | lib/flask_admin/contrib/mongoengine/view.py:148-168 | the list columns are the names of the qualifying fields in creation order |
| `MongoView.ModelView.ScaffoldSortableColumns` | lib/flask_admin/contrib/mongoengine/view.py:170-181 | the sortable columns are the name-to-field map of the sortable fields |
| `MongoView.ModelView.InitSearch` | lib/flask_admin/contrib/mongoengine/view.py:183-204 | the fields found are appended, those before a failing name included; the result is that name's error, else whether any search field is registered |
| `MongoView.ModelView.GetList` | lib/flask_admin/contrib/mongoengine/view.py:269-331 | the count query and the list query are the specified plans |
| `MongoView.SortAndPage` | lib/flask_admin/contrib/mongoengine/view.py:318-331 | the list query appends the ordering, the skip and the limit to the count query |
| `MongoView.ApplyFilters` | lib/flask_admin/contrib/mongoengine/view.py:289-292 | the filter loop builds the specified filter steps |
| `MongoView.SearchCriterion` | lib/flask_admin/contrib/mongoengine/view.py:300-311 | the criteria loop ORs one criterion per search field with the parsed operator and term |
| `MongoFields.FileProxy.constructor` | lib/flask_admin/contrib/mongoengine/fields.py:44-52 | a GridFS proxy starts with no calls made and knows whether it holds a file |
| `MongoFields.DeleteMarker` | lib/flask_admin/contrib/mongoengine/fields.py:37 | the marker is the field name wrapped as `_<name>-delete` |
| `MongoFields.DeleteMarkerDistinguishes` | lib/flask_admin/contrib/mongoengine/fields.py:37-38 | two fields share a delete marker iff they share a name |
| `MongoFields.MongoFileField.constructor` | lib/flask_admin/contrib/mongoengine/fields.py:30-33 | a new file field does not want to delete |
| `MongoFields.MongoFileField.Process` | lib/flask_admin/contrib/mongoengine/fields.py:35-41 | the delete flag becomes set iff it was set or non-empty form data holds the field's marker; then `data` is what the base `process` leaves, which is a parameter |
| `MongoFields.MongoFileField.PopulateObj` | lib/flask_admin/contrib/mongoengine/fields.py:43-59 | with a file proxy present, exactly the specified GridFS calls are appended to it; with none, nothing happens |
| `MongoFields.FileCallsSpec` | lib/flask_admin/contrib/mongoengine/fields.py:47-59 | a requested deletion deletes and stores nothing; otherwise an upload is stored exactly once, by `put` iff no file is held and by `replace` otherwise; no upload means no call; nothing deletes unless asked |
| `MongoFields.EmbeddedDoc.constructor` | lib/flask_admin/contrib/mongoengine/fields.py:21 | a fresh embedded document holds the model's default attributes |
| `MongoFields.ParentDoc.constructor` | lib/flask_admin/contrib/mongoengine/fields.py:19 | a parent document holds the given embedded document or None |
| `MongoFields.FormPopulate` | lib/flask_admin/contrib/mongoengine/fields.py:24 | populating sets exactly the attributes the form names, on top of the existing ones |
| `MongoFields.FormPopulateValues` | lib/flask_admin/contrib/mongoengine/fields.py:24 | the last form field of a name decides that attribute; attributes no field names keep their value |
| `MongoFields.ModelFormField.constructor` | lib/flask_admin/contrib/mongoengine/fields.py:13-16 | the field keeps its subform and the model's defaults |
| `MongoFields.ModelFormField.PopulateObj` | lib/flask_admin/contrib/mongoengine/fields.py:18-24 | afterwards the parent always holds an embedded document: the existing one when present, else a fresh one from the model's defaults; the subform populates it |
| `PeeweeForm.Database.constructor` | lib/flask_admin/contrib/peewee/form.py:51-79 | the database's operation log starts empty |
| `PeeweeForm.DisplayRowControls` | lib/flask_admin/contrib/peewee/form.py:36-37 | an entry shows row controls iff its primary key subfield is readable and not None; an unreadable one raises |
| `PeeweeForm.PkMap` | lib/flask_admin/contrib/peewee/form.py:55-57 | every child pointing at the parent is in the map, and every entry of the map is such a child under its own key |
| `PeeweeForm.ChildrenOf` | lib/flask_admin/contrib/peewee/form.py:41-42 | the children loaded are exactly the rows pointing at the parent |
| `PeeweeForm.ProcessData` | lib/flask_admin/contrib/peewee/form.py:39-46 | the rows are loaded iff there is no form data, and then they are exactly the children of the parent |
| `PeeweeForm.InlineModelFormList.constructor` | lib/flask_admin/contrib/peewee/form.py:27-34 | the list keeps its model's primary key name, its relation, the model's defaults and its entries |
| `PeeweeForm.InlineModelFormList.SaveRelated` | lib/flask_admin/contrib/peewee/form.py:51-79 | the database log grows by exactly the specified operations, and the call raises iff an entry's primary key cannot be read, with that error |
| `PeeweeForm.SaveOpsStep` | lib/flask_admin/contrib/peewee/form.py:60-79 | an entry whose primary key is readable adds exactly its own operations |
| `PeeweeForm.PopulateChild` | lib/flask_admin/contrib/peewee/form.py:72 | populating a child copies the entry's subfields except the primary key, in order |
| `PeeweeForm.SaveOpsStops` | lib/flask_admin/contrib/peewee/form.py:60-61 | the first entry that raises decides the error, and nothing after it is done |
| `PeeweeForm.SaveOpsPrefix` | lib/flask_admin/contrib/peewee/form.py:60-79 | what is done for the first entries is a prefix of what is done for all of them |
| `PeeweeForm.EntryOpsOf` | lib/flask_admin/contrib/peewee/form.py:63-79 | one entry either deletes one child or announces and saves one model that it names or creates |
| `PeeweeForm.SaveOpsFromEntries` | lib/flask_admin/contrib/peewee/form.py:60-79 | every operation comes from an entry: a deletion of an existing child the entry marks, or a save of a model related to the parent |
| `PeeweeForm.SaveOpsPaired` | lib/flask_admin/contrib/peewee/form.py:77-79 | every save comes right after the `on_model_change` of the same model |
| `PeeweeForm.SaveOpsSpec` | lib/flask_admin/contrib/peewee/form.py:51-79 | only marked existing children are deleted; every saved child points at the parent and follows its `on_model_change`; existing children no entry names are never touched |
| `PeeweeForm.EntryOutcome` | lib/flask_admin/contrib/peewee/form.py:63-79 | an entry that names no existing child is saved as a new child, even when marked for deletion, with the subform's data over the defaults; one that names a child and is marked deletes it |
| `PeeweeForm.Convert` | lib/flask_admin/contrib/peewee/form.py:82-103 | the converter handles exactly primary key, date, datetime and time fields, each under the field's own name; a primary key becomes a hidden field without validators |
| `PeeweeForm.ConvertKeepsValidators` | lib/flask_admin/contrib/peewee/form.py:94-103 | the date, datetime and time handlers keep the given validators |
| `PeeweeForm.WithExtraFields` | lib/flask_admin/contrib/peewee/form.py:124-126 | the form has the generated fields and the extra ones; an extra field wins over a generated one of its name; the other generated fields are kept |
| `PeeweeForm.ReverseField` | lib/flask_admin/contrib/peewee/form.py:171-179 | a reverse field is found iff some foreign key points at the parent, and it is the first such field; otherwise the error names the inline model |
| `PeeweeForm.PeeweeInfo` | lib/flask_admin/contrib/peewee/form.py:144-163 | a model class gets default inline settings; anything else gets the settings the base converter resolves |
| `PeeweeForm.Excluded` | lib/flask_admin/contrib/peewee/form.py:182-187 | the child form always leaves out the reverse field first |
| `PeeweeForm.Contribute` | lib/flask_admin/contrib/peewee/form.py:165-217 | a successful contribution sets the `fa_<parent>` attribute and keeps every other attribute |
| `PeeweeForm.InlineNameCollision` | lib/flask_admin/contrib/peewee/form.py:201 | as written, two inline models of one parent leave a single inline list, the second's |
| `PeeweeForm.InlinePropName` | lib/flask_admin/contrib/peewee/form.py:201 | the corrected attribute name ends with the child model's name |
| `PeeweeForm.InlinePropNameInjective` | lib/flask_admin/contrib/peewee/form.py:201 | the corrected names of two child models of a parent agree iff the models do |
| `PeeweeForm.ContributeFixed` | lib/flask_admin/contrib/peewee/form.py:165-217 | a corrected contribution sets the attribute named after both models to the child's list and keeps every other attribute |
| `PeeweeForm.KeepsEachSnoc` | lib/flask_admin/contrib/peewee/form.py:201-211 | adding the last inline list under its own name keeps the lists of the earlier models |
| `PeeweeForm.ContributeAllKeepsEach` | lib/flask_admin/contrib/peewee/form.py:165-217 | with the correction, every inline model with a distinct name keeps its own inline list on the form |

## Left out

- Template rendering, `url_for`, redirects, `flash`, `gettext`, Blueprint registration and HTTP dispatch: these are framework I/O. Only the decisions they act on are modelled.
- Executing SQLAlchemy, MongoEngine and peewee queries, and the session commit and rollback around them: a query is the log of the calls made on it.
- `mongoengine/tools.py` and `peewee/tools.py`, with their `parse_like_term`, are not part of this model. Their search-term parser is a function parameter of the views and filters that use it.
- `MongoView.ModelView.GetList`: the count and the list query are the plans; running them and `api_file_view` (GridFS I/O) are not modelled.
- File system effects in `fileadmin.py` are parameters or left out: whether a path exists, directory listings, sizes, `mkdir`, `rmtree`, `rename`, reading, writing and `save_file`. So are `_get_dir_url` and `_get_file_url`, which only build URLs.
- `FileAdmin.FileAdmin.constructor`: does not raise the IOError for a missing `base_path` (fileadmin.py:193-195), because whether a path exists is not modelled.
- `FileAdmin.FileAdmin.Index`: uses the corrected `is_in_folder` test (see Findings).
- `TimeField` (form/fields.py:13-59): it depends on `time.strptime`, and it reads `self.formats` while setting `self.format`.
- Metaclass and `dir()` reflection, `ObsoleteAttr`, `recreate_field` and `BaseForm`. Class attributes become explicit lists and maps, and `dir()` order is a given sequence. `InlineModelConverterBase.get_info` does not model the `dir()` copy of an admin object's attributes.
- `_get_field_override` of `sqla/form.py` is the view's `form_overrides` lookup, modelled inline. `query_factory` is not modelled, because it is a closure over the session.
- The SQLAlchemy `InlineModelConverter` (sqla/form.py:413 on) and `_resolve_prop` are not modelled. `_resolve_prop` is taken as the identity.
- `save_inline` (peewee/form.py:220-223), and the `fa_` property `contribute` sets on the parent model (peewee/form.py:213-215), are not modelled. Only the attribute set on the form class is.
- `child_form` in `contribute` is always generated. A `get_form` override on the inline admin is not modelled. Neither is `model_form` of wtfpeewee, which is not part of this model.
- `InlineFieldList`'s widget template and the `setattr` on the parent in `InlineModelFormField.populate_obj`: they are rendering and reflection.
- `init_app`, `add_link` and `menu_links` of `base.py` are not modelled.
- `TodoApi.TodoService.TodoInsert`: requires an id absent from the store, because the datastore's id allocator is not part of this model.
- `TodoApi.TodoService.TodosList`: the `order` and `pageToken` query fields are not modelled. The listing states which todos appear and how many, but not their order.
- `TodoApi.PageSize`: the default and the maximum page size belong to `endpoints_proto_datastore`'s `query_method`, which is not part of this model, so both are parameters. A `limit` above the maximum is taken as capped; the library's own handling of it is not modelled.
- `SqlaView.NewModelView`: the errors `_refresh_cache` can raise while it builds the list columns, the sortable columns, the create and edit forms and the filters (model/base.py:423-455) are not modelled. The view is built from a `ViewConfig` in which those are already given, so the error iff covers only the search set-up and the primary key.
- `ModelBase.NumPages`: requires a positive page size. With `page_size = 0` the code raises ZeroDivisionError at model/base.py:989, and that error is not modelled.
- `MongoView.ModelView.InitSearch`: the "Can only search on text columns" message holds the searchable name. The code formats the field object itself (mongoengine/view.py:199-200), whose text is MongoEngine's, which is not part of this model.
- `MongoView.ModelView.ScaffoldListColumns`: compares field types exactly. The code tests a list's inner field with `isinstance` (mongoengine/view.py:158-159), so a subclass of `EmbeddedDocumentField` inside a list is also skipped there; field subclasses are not modelled.
- `Text.ParseInt`: accepts only the ASCII digits 0-9 between optional surrounding whitespace and sign. Python's `int` also accepts other Unicode decimal digits, and from Python 3.6 on single underscores between digits; neither is modelled.
- `PeeweeForm.ReverseField`: the error message holds the inline model's name. The code formats the model class with `%s` (peewee/form.py:179), whose text is peewee's.
- `InlineModelFormList.populate_obj` of peewee/form.py:48-49 does nothing, so nothing of it is modelled: the inline rows are saved by `save_inline`, which is left out above.
- The AngularJS client, App Engine bootstrap, authentication, memcache and the test suites are out of scope.
- `Text.ToLower`/`ToUpper` and the prettifiers: case mapping is ASCII only. No Unicode case folding is modelled.
- `SqlaForm.AdminModelConverter.ColumnKwargs`: builds the field's validators on a copy of the `form_args` list, as the code evidently intends. The code as written shares the list with the view's `form_args` (sqla/form.py:124-126), so the validators of the create form and the edit form pile up in it. `SqlaForm.SharedAfter` models that sharing for one conversion (see Findings).
- `SqlaTools.SearchModes`: the model compares the term case-sensitively. The `ilike` the views search with ignores case, under the database's own collation, which is not modelled.
- `SqlaView.SearchJoins`: lists the joined tables in the order they are first seen, which is the iteration order of the `_search_joins` dict only from Python 3.7 on. Under Python 2 that order is arbitrary.
- `MongoFields.MongoFileField.Process` and `ModelFields.InlineFieldList.Process`: the base wtforms `process` is not part of this model. The `data` it leaves and the entries it rebuilds are parameters.

## Findings

| source | as written | input that shows it | evidently intended | confidence | as-written member | corrected member |
|---|---|---|---|---|---|---|
| lib/flask_admin/contrib/pymongo/tools.py:8-9 | a `^` term becomes `'^%s' % term[1]`, so only its first character after the `^` is kept | `^abc` gives the pattern `^a`; `^` alone raises IndexError | `'^%s' % term[1:]`, keeping the whole prefix term as the `=` branch does | not executed | `PymongoTools.AsWrittenDropsPrefix` | `PymongoTools.ParseLikeTerm` |
| lib/flask_admin/contrib/fileadmin.py:29 | the name pattern ends in `$`, which in Python also matches just before a final newline | the name `a\n` passes `validate_name` | the pattern matches the whole name (`\Z`), so a control character never passes | not executed | `FileAdmin.NameRegexAcceptsTrailingNewline` | `FileAdmin.ValidateNameFixed` |
| lib/flask_admin/contrib/fileadmin.py:262-271 | `is_in_folder` tests a plain string prefix of the normalised path | from base `/a`, the path `../ab` normalises to `/ab`, which starts with `/a` and is accepted | a directory is in the base folder iff it is the base or lies below it, component by component | not executed | `FileAdmin.InFolderPrefixEscape` | `FileAdmin.InFolderComponents` |
| lib/flask_admin/contrib/peewee/form.py:201 | the inline list is set on the form under `'fa_%s' % model.__name__`, which names only the parent model | two inline models `Comment` and `Tag` of one parent both write `fa_<parent>`; only `Tag`'s list is left | one attribute per inline model | not executed | `PeeweeForm.InlineNameCollision` | `PeeweeForm.ContributeAllKeepsEach` |
| lib/flask_admin/contrib/sqla/form.py:124-126 | `kwargs.update(field_args)` puts the `validators` list of a `form_args` entry itself into the field's arguments, and `convert` then appends to it | a unique column with `form_args = {'name': {'validators': []}}`: after `get_create_form` and `get_edit_form` the list holds two Unique checks | each form starts from a copy of the user's list, so each field has one Unique check and `form_args` stays as given | not executed | `SqlaForm.ValidatorsPileUp` | `SqlaForm.ColumnValidators` |
