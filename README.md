# Build request admission and lifecycle

This project models the core of `Travis::Model::Request`, the part of a
continuous-integration service that takes an inbound build request and does two things:

- **Branch admission (`approved?`).** The `branches` entry of the repository
  configuration decides whether a build may run for the branch of the
  request's commit. The entry may be a comma-separated string (`'master, develop'`),
  an array of names, or a mapping with an `only` or `except` key whose value
  is one of those two forms. It is normalised once into a closed `FilterSpec`
  (`NoFilter | Only(names) | Except(names)`), and the decision is taken on that.
  Module `BranchFilter` (`branch_filter.dfy`) holds this part. Module `Strings`
  (`strings.dfy`) holds the comma splitting and whitespace stripping it relies on.
- **Request lifecycle.** A `Request` wraps the persisted request record that
  the store's `create_from` returned. `create` sets the record's state to
  `:created`. `start!` sets it to `:started`. `finish!` sets it to `:finished`.
  `configure!` hands the data to the record, resets the build's jobs when the
  branch is approved, and then finishes the request. Every step saves the
  record. Module `RequestLifecycle` (`request.dfy`) holds this part, as classes:
  `Record` (state, save count, configuration, commit) and `Request` (the wrapped
  record, plus a flag for the job reset).

The contracts are drawn from the assertions of the test file
`spec_fast/travis/model/request_spec.rb`; where those assertions leave a choice
open, the choice is listed under "## Left out".

Save counts. Each example saves the record twice. `let(:request)` is lazy, so the
window in which the saves are counted differs between examples:
- In the `start!` and `finish!` examples, the request is first built after the
  expectation is set. Those two saves are the one by `create` plus the one by
  the transition.
- In the `configure!` examples, the `before` block builds the request first. So
  `configure!` alone saves twice.

The examples fix only sums: `create` plus `start!` saves twice, `create` plus
`finish!` saves twice, and `configure!` alone saves twice. Several splits fit
these sums. The model picks one of them: `create`, `start!` and `finish!` each
save once, and `configure!` saves once for its configuration step and once in
the `finish!` it calls. The `*Example` methods restate each example in its own
counting window, and they hold under this split. The test's TODO asks why the
record is saved twice; the model follows the counts the tests fix.

## Model

| member | source | states |
|---|---|---|
| `Strings.Trim` | spec_fast/travis/model/request_spec.rb:93 | the stripped name has no whitespace at either end, and contains no comma if the input had none; `TrimRemovesOnlySpace` and `TrimOfPadded` fix the rest of its result |
| `Strings.TrimRemovesOnlySpace` | spec_fast/travis/model/request_spec.rb:93 | what stripping removes is whitespace only: every input is its stripped form with whitespace in front and behind |
| `Strings.TrimOfPadded` | spec_fast/travis/model/request_spec.rb:93 | stripping a name padded on both sides with any whitespace gives back exactly that name |
| `Strings.LeadingSpaceIsSpace` | spec_fast/travis/model/request_spec.rb:93 | every character `strip` counts as leading whitespace is whitespace |
| `Strings.TrailingSpaceIsSpace` | spec_fast/travis/model/request_spec.rb:93 | every character `strip` counts as trailing whitespace is whitespace |
| `Strings.TrimIsSlice` | spec_fast/travis/model/request_spec.rb:93 | the stripped name is the part of the input between a whitespace prefix and a whitespace suffix |
| `Strings.TrimDropsTrailingSpace` | spec_fast/travis/model/request_spec.rb:93 | whitespace behind a name with nothing to strip is removed exactly |
| `Strings.TrimDropsLeadingSpace` | spec_fast/travis/model/request_spec.rb:93 | the blank after a comma in `'master, develop'` is removed by stripping |
| `Strings.Split` | spec_fast/travis/model/request_spec.rb:93 | splitting on commas gives at least one field, and no field contains a comma |
| `Strings.JoinSplit` | spec_fast/travis/model/request_spec.rb:93 | splitting loses nothing: joining the fields with commas gives back the string |
| `Strings.SplitJoin` | spec_fast/travis/model/request_spec.rb:93 | splitting undoes joining when no name contains a comma |
| `BranchFilter.TrimAll` | spec_fast/travis/model/request_spec.rb:93 | every piece of a list is stripped, with the order and number of pieces kept |
| `BranchFilter.Names` | spec_fast/travis/model/request_spec.rb:92-100 | an array is taken as it is; a string gives one name per comma-separated field, each with no surrounding whitespace and no comma |
| `BranchFilter.NamesAreStrippedFields` | spec_fast/travis/model/request_spec.rb:93 | name `i` of a string is field `i` of the string with only whitespace removed around it |
| `BranchFilter.Normalize` | spec_fast/travis/model/request_spec.rb:87-120 | turns the `branches` value into a closed filter; its meaning is stated by `NoBranchesApprovesAll`, `OnlyApprovesListed`, `ExceptApprovesUnlisted`, `PlainIsOnly` and `StringFormIsArrayForm` |
| `BranchFilter.Admits` | spec_fast/travis/model/request_spec.rb:87-154 | the decision on a normalised filter: no filter admits every branch, an only-filter admits the branches it names, an except-filter those it does not name; stated for each `branches` shape by `NoBranchesApprovesAll`, `OnlyApprovesListed` and `ExceptApprovesUnlisted` |
| `BranchFilter.Approved` | spec_fast/travis/model/request_spec.rb:83-155 | `approved?` on a configuration and a branch; its meaning is stated by `NoBranchesApprovesAll`, `OnlyApprovesListed`, `ExceptApprovesUnlisted` and `StringFormIsArrayForm`, and the test cases by the example lemmas below |
| `BranchFilter.NoBranchesApprovesAll` | spec_fast/travis/model/request_spec.rb:87-90 | without a `branches` key every branch is approved |
| `BranchFilter.OnlyApprovesListed` | spec_fast/travis/model/request_spec.rb:92-110 | a plain list or an `only` list approves a branch if and only if it names it |
| `BranchFilter.ExceptApprovesUnlisted` | spec_fast/travis/model/request_spec.rb:112-120 | an `except` list approves a branch if and only if it does not name it |
| `BranchFilter.PlainIsOnly` | spec_fast/travis/model/request_spec.rb:92-110 | a plain list normalises to the same filter as that list under `only`, whatever `except` says beside it |
| `BranchFilter.NamesOfPadded` | spec_fast/travis/model/request_spec.rb:92-99 | names joined by bare commas, each padded with any whitespace (`'a,b'`, `' a , b '`, `'a, b'`), read as the array of those names |
| `BranchFilter.StringFormIsArrayForm` | spec_fast/travis/model/request_spec.rb:92-154 | a string form of a list, with any whitespace around its names, normalises to the same filter as the array form, and so decides alike for every branch, whether plain, under `only` or under `except` |
| `BranchFilter.ReadsAsPair` | spec_fast/travis/model/request_spec.rb:93 | a text that is two comma-free, stripped names joined by `', '` reads as the array of those two names |
| `BranchFilter.MasterDevelopReads` | spec_fast/travis/model/request_spec.rb:93 | `'master, develop'` reads as `['master', 'develop']` |
| `BranchFilter.PagesFeatureReads` | spec_fast/travis/model/request_spec.rb:113 | `'github-pages, feature-*'` reads as `['github-pages', 'feature-*']` |
| `BranchFilter.StagingFeatureReads` | spec_fast/travis/model/request_spec.rb:147 | `'staging, feature-*'` reads as `['staging', 'feature-*']` |
| `BranchFilter.PlainStringApprovesListed` | spec_fast/travis/model/request_spec.rb:92-95 | `branches: 'master, develop'` approves branch `master` |
| `BranchFilter.PlainStringRejectsUnlisted` | spec_fast/travis/model/request_spec.rb:124-129 | `branches: 'master, develop'` rejects branch `staging` |
| `BranchFilter.OnlyStringApprovesListed` | spec_fast/travis/model/request_spec.rb:102-105 | `only: 'master, develop'` approves branch `master` |
| `BranchFilter.OnlyStringRejectsUnlisted` | spec_fast/travis/model/request_spec.rb:136-139 | `only: 'master, develop'` rejects branch `staging` |
| `BranchFilter.ExceptStringApprovesUnlisted` | spec_fast/travis/model/request_spec.rb:112-115 | `except: 'github-pages, feature-*'` approves branch `master` |
| `BranchFilter.ExceptStringRejectsListed` | spec_fast/travis/model/request_spec.rb:146-149 | `except: 'staging, feature-*'` rejects branch `staging` |
| `BranchFilter.ArrayFormExamples` | spec_fast/travis/model/request_spec.rb:97-154 | the array forms `['master', 'develop']` (plain and `only`), `except: ['github-pages', 'feature-*']` and `except: ['staging', 'feature-*']` decide as the tests expect for branches `master` and `staging` |
| `RequestLifecycle.Record.constructor` | spec_fast/travis/model/request_spec.rb:3-12 | a record as the store hands it out carries its configuration and commit, has no state and has not been saved |
| `RequestLifecycle.Record.Save` | spec_fast/travis/model/request_spec.rb:5 | each `save!` adds one to the record's save count |
| `RequestLifecycle.Request.constructor` | spec_fast/travis/model/request_spec.rb:84 | `Request.new(record)` wraps that record without touching it |
| `RequestLifecycle.Request.State` | spec_fast/travis/model/request_spec.rb:37-39 | `state` of a request is the state of its record; the contracts of `Create`, `Start`, `Finish` and `Configure` give its value after each step |
| `RequestLifecycle.Request.IsApproved` | spec_fast/travis/model/request_spec.rb:83-155 | `approved?` of a request is `BranchFilter.Approved` on its record's configuration and its commit's branch; `Configure` resets jobs exactly when it holds |
| `RequestLifecycle.Request.Create` | spec_fast/travis/model/request_spec.rb:18-31 | `create` returns a new request that wraps exactly the given record, sets the record's state to `:created` and saves it once |
| `RequestLifecycle.Request.Start` | spec_fast/travis/model/request_spec.rb:41-50 | `start!` leaves the state at `:started` and saves the record once |
| `RequestLifecycle.Request.Finish` | spec_fast/travis/model/request_spec.rb:70-79 | `finish!` leaves the state at `:finished` whatever it was before, and saves the record once |
| `RequestLifecycle.Request.Configure` | spec_fast/travis/model/request_spec.rb:53-67 | `configure!` leaves the state at `:finished`, saves the record twice, and resets the jobs exactly when the branch is approved |
| `RequestLifecycle.CreateExample` | spec_fast/travis/model/request_spec.rb:24-39 | a freshly created request wraps the record `create_from` returned and reports `:created` |
| `RequestLifecycle.StartExample` | spec_fast/travis/model/request_spec.rb:42-50 | after `start!` the state is `:started`, and the record has been saved exactly twice since the request was built |
| `RequestLifecycle.ConfigureExample` | spec_fast/travis/model/request_spec.rb:54-67 | with an approving configuration, `configure!` ends at `:finished`, resets the jobs, and saves exactly twice |
| `RequestLifecycle.ConfigureRejectedExample` | spec_fast/travis/model/request_spec.rb:59-62 | with a rejecting configuration, `configure!` still ends at `:finished` but resets no jobs |
| `RequestLifecycle.FinishExample` | spec_fast/travis/model/request_spec.rb:71-79 | after `finish!` the state is `:finished`, and the record has been saved exactly twice since the request was built |

## Left out

- Branch patterns are compared as exact strings. `feature-*` only ever appears
  where it must not match, so glob matching with `*` is not modelled.
- `BranchFilter.Normalize`: when both `only` and `except` are present, `only`
  decides and `except` is ignored. This is a chosen rule, since nothing
  exercises that case.
- `BranchFilter.Normalize`: an empty `branches` value is read as an empty
  only-list. `branches: []` admits no branch, and `branches: ''` admits only
  the empty name. An empty value is not treated like an absent one, which
  would approve every branch. This is a choice, since no test gives an empty value.
- A `branches` value that is neither a string, an array nor an only/except
  mapping cannot be expressed in the model's configuration type.
- `Strings.Split` keeps every field. Ruby's `split(',')` drops trailing empty
  fields, so `'master,'` gives an extra empty name here. An empty name matters
  only for a branch named by the empty string, and neither form is exercised.
- The merge of the `configure!` data into the record's configuration is not
  modelled. The record's `configure` is a no-op in the tests, and nothing
  observes the merged configuration.
- The build and its job matrix are reduced to the flag `jobsInitialized`.
- Parsing the payload and the store's `create_from` are outside the model.
  `Create` takes the record that `create_from` returned. A failing
  `create_from` (record creation error) is not modelled.
- A failing `save!` and the propagation of its error are not modelled.
- `RequestLifecycle.ConfigureRejectedExample`: the tests only run `configure!`
  with `approved?` stubbed to true. The rejected case is a chosen behaviour
  (still finished, no job reset) and is not backed by an assertion.
- `RequestLifecycle.Request.Create`: the single save is a choice. The tests fix
  only the sum of the saves of `create` and of the transition that follows.
- `RequestLifecycle.Request.Start`: no transition checks the current state.
  `start!` after `finish!` moves the record back to `:started`, and `finish!`
  is accepted from any state. A lifecycle that only moves forward is not
  enforced. This is a choice, since the tests never call a transition out of order.
- `RequestLifecycle.Request.Start`: the single save is a choice. The tests fix
  only its sum with the save count of `create`, at two.
- `RequestLifecycle.Request.Finish`: the single save is a choice. The tests fix
  only its sum with the save count of `create`, at two.
- `RequestLifecycle.Request.Configure`: the split of its two saves, one for the
  configuration step and one in `finish!`, is a choice. The tests fix only the
  total of two.
