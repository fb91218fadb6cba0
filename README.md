# security_baseline_syslog in Dafny

A Dafny model of the Facter fact `security_baseline_syslog`, which reports how
rsyslog and syslog-ng are configured on a host. The model also covers the two
copies of the value-defaulting helper that the fact calls.

The fact runs `grep` over the daemons' configuration files. It also asks
whether each daemon's service is enabled and its package installed. From
those answers it builds a nested hash:

- `rsyslog` and `syslog-ng`, each with `service`, `package`,
  `filepermissions`, `remotesyslog` and `loghost`;
- `syslog_installed`.

The model takes everything the fact receives from outside as an
`Observations` value:

- for each grep, the string `exec` returned, as a string;
- the text captured by the two syslog-ng regular expressions, as a
  `Capture`;
- the service and package answers.

Files:

- `ruby_values.dfy` (`RubyValues`): the Ruby values the fact handles (nil,
  booleans, Strings, Hashes, MatchData) and the exceptions it can raise. It
  also models the core methods the fact relies on: `empty?`, `strip`, `||`
  and `Array#[]`, including the receivers on which they raise.
- `ruby_split.dfy` (`RubySplit`): `String#split(/\s+/)`. It keeps a leading
  empty field and drops trailing empty ones. The file proves that splitting
  words separated by any runs of whitespace, with optional whitespace
  around them, gives back exactly the words, behind one empty field when
  there is leading whitespace.
- `value_helpers.dfy` (`ValueHelpers`): `check_value_string` and
  `check_value_boolean`.
- `legacy_value_helpers.dfy` (`LegacyValueHelpers`): the older copy,
  `check_value` and `check_value_boolean`. It calls `empty?` before
  `nil?`, so a nil value raises.
- `syslog_fact.dfy` (`SyslogFact`): the `setcode` block in two forms.
  - The per-field rules are functions.
  - The report is the function `Report`, and `ToHash` lays it out as the
    nested hash.
  - `SetCode` builds the hashes key by key, as the block does, and is proved
    to produce `ToHash(Report(obs))`.
  - `SetCodeAsWritten` models the block exactly as written. It always raises
    (see Findings).

Three behaviours of the code are worth stating outright:

- `check_value_string` returns a nonempty value untrimmed.
- rsyslog `remotesyslog` is therefore the string `exec` returned, as it is.
- Exceptions escape the `setcode` block.

`strip` removes Ruby's `\s` characters (space, `\t`, `\n`, `\v`, `\f`, `\r`)
and NUL from both ends.

## Model

| member | source | states |
|---|---|---|
| RubyValues.IsEmpty | lib/facter/security_baseline_syslog/helpers/check_value_string.rb:6 | `empty?` is true exactly for "" and {}, false for other Strings and Hashes, and raises NoMethodError on nil, booleans and MatchData |
| RubyValues.RubyStrip | lib/facter/security_baseline_syslog.rb:19 | `strip` returns a value exactly when the receiver is a String; on anything else it raises NoMethodError for `strip` on that receiver |
| RubyValues.Strip | lib/facter/security_baseline_syslog.rb:19 | the result is a slice of the input with only whitespace and NUL characters cut off before and after it, neither of its ends is such a character, and a string without them is returned unchanged |
| RubyValues.Or | lib/facter/security_baseline_syslog.rb:61 | `a \|\| b` is one of its operands, truthy exactly when either operand is, and the boolean or of two booleans |
| RubyValues.At | lib/facter/security_baseline_syslog.rb:19 | indexing an array gives nil exactly when the index is past the end, and the element otherwise |
| RubySplit.RawFields | lib/facter/security_baseline_syslog.rb:19 | the pieces between whitespace runs contain no whitespace, the interior pieces are nonempty, and the first and last pieces are empty exactly when the string starts or ends with whitespace |
| RubySplit.Split | lib/facter/security_baseline_syslog.rb:19 | `split(%r{\s+})`: no field holds whitespace; only the first field can be empty, exactly when the string starts with whitespace; a string that is empty or all whitespace has no fields |
| RubySplit.SplitJoinWith | lib/facter/security_baseline_syslog.rb:19 | splitting words separated by runs of whitespace of any length, with optional whitespace before and after, gives exactly the words, behind one empty field when there is leading whitespace |
| ValueHelpers.CheckValueString | lib/facter/security_baseline_syslog/helpers/check_value_string.rb:5-11 | nil, "" and {} give the default; a nonempty String or Hash is returned unchanged, untrimmed; a receiver without `empty?` raises |
| ValueHelpers.CheckValueStringIdempotent | lib/facter/security_baseline_syslog/helpers/check_value_string.rb:5-11 | applying the helper again with the same nonempty default changes nothing |
| ValueHelpers.CheckValueStringNeverEmpty | lib/facter/security_baseline_syslog/helpers/check_value_string.rb:5-11 | with a nonempty String default, the result for nil or any String is a nonempty String |
| ValueHelpers.CheckValueBoolean | lib/facter/security_baseline_syslog/helpers/check_value_string.rb:15-27 | nil, "" and {} give the default; a nonempty value gives false when the default is `true` and true for any other default; a receiver without `empty?` raises |
| ValueHelpers.CheckValueBooleanNegates | lib/facter/security_baseline_syslog/helpers/check_value_string.rb:15-27 | for a boolean default and a nonempty value the result is the negated default |
| LegacyValueHelpers.CheckValue | lib/facter/helper/check_value_string.rb:5-11 | nil raises NoMethodError for `empty?`; "" and {} give the default; a nonempty value is returned unchanged; it raises exactly when the value is neither a String nor a Hash |
| LegacyValueHelpers.CheckValueAgreesExceptNil | lib/facter/helper/check_value_string.rb:5-11 | on every value except nil, `check_value` gives the same outcome as the newer `check_value_string` |
| LegacyValueHelpers.CheckValueNilDiffers | lib/facter/helper/check_value_string.rb:6 | on nil the newer copy returns the default while the older one raises: its `nil?` guard is unreachable |
| LegacyValueHelpers.CheckValueBoolean | lib/facter/helper/check_value_string.rb:15-27 | nil raises; "" and {} give the default; a nonempty value gives false when the default is `true` and true otherwise |
| LegacyValueHelpers.CheckValueBooleanAgreesExceptNil | lib/facter/helper/check_value_string.rb:22 | on every value except nil, both copies of `check_value_boolean` give the same outcome |
| SyslogFact.Exec | lib/facter/security_baseline_syslog.rb:41-52 | an exec through `Facter::Core` returns its result string; through any other namespace it raises NameError for that constant |
| SyslogFact.FacterCodeRaises | lib/facter/security_baseline_syslog.rb:41-52 | every grep issued through `Facter::Code` raises NameError, whatever `exec` would have returned |
| SyslogFact.OrNone | lib/facter/security_baseline_syslog.rb:20-26 | `check_value_string(val, 'none')` on nil or a String is never empty: "none" for nil and "", the String itself otherwise |
| SyslogFact.FileCreateModeAsWritten | lib/facter/security_baseline_syslog.rb:19 | as written, line 19 raises NoMethodError for `strip` on nil exactly when the `exec` result has fewer than two fields; otherwise it gives the second field, stripped |
| SyslogFact.FileCreateModeToken | lib/facter/security_baseline_syslog.rb:19 | line 19 made nil-safe: nil exactly when there are fewer than two fields, otherwise the String holding the second field, stripped |
| SyslogFact.FileCreateModePermissions | lib/facter/security_baseline_syslog.rb:19-20 | rsyslog `filepermissions` is the second field, stripped, or "none" when there is no second field or it strips to nothing |
| SyslogFact.FileCreateModeSecondWord | lib/facter/security_baseline_syslog.rb:19-20 | for words separated by any runs of whitespace (tabs, several spaces, the newlines between several files' lines), perhaps followed by whitespace, both the as-written and the nil-safe line 19 take exactly the second word |
| SyslogFact.FileCreateModeLeadingSpace | lib/facter/security_baseline_syslog.rb:19-20 | when the `exec` result starts with whitespace, line 19 takes the first word instead of the second, because `split` keeps a leading empty field |
| SyslogFact.RsyslogRemoteSyslog | lib/facter/security_baseline_syslog.rb:21-22 | rsyslog `remotesyslog` is the string `exec` returned, not trimmed by the helper, when it is nonempty, and "none" otherwise |
| SyslogFact.RsyslogLoghost | lib/facter/security_baseline_syslog.rb:23-31 | rsyslog `loghost` is true exactly when both greps returned something other than "" and "none"; it is false when either returned "" |
| SyslogFact.MatchValue | lib/facter/security_baseline_syslog.rb:37-39 | `match` gives nil exactly when the pattern does not match, and otherwise a MatchData holding the capture |
| SyslogFact.CaptureAsWritten | lib/facter/security_baseline_syslog.rb:37-39 | as written, `.match(...).strip` raises NoMethodError on nil or on the MatchData, whatever the configuration holds |
| SyslogFact.CaptureValue | lib/facter/security_baseline_syslog.rb:37-39 | as intended: nil exactly when the pattern does not match, otherwise capture group 1, stripped |
| SyslogFact.SyslogNgPermissions | lib/facter/security_baseline_syslog.rb:37-38 | syslog-ng `filepermissions` is the stripped `perm(...)` argument, or "none" when it does not match or strips to nothing |
| SyslogFact.SyslogNgRemoteSyslog | lib/facter/security_baseline_syslog.rb:39-47 | syslog-ng `remotesyslog` is either "none" or exactly the stripped `tcp(...)` argument, and is not "none" exactly when both `logserv` and `logsend` were found |
| SyslogFact.SyslogNgLoghost | lib/facter/security_baseline_syslog.rb:48-58 | syslog-ng `loghost` is true exactly when all three greps found something other than "none"; it is false when any one returned "" |
| SyslogFact.RemoteSyslogWithoutLogserver | lib/facter/security_baseline_syslog.rb:39-47 | when the `tcp(...)` pattern does not match, as happens on every host while line 39's grep cannot run, syslog-ng `remotesyslog` is "none" in the facts and in the reported hash |
| SyslogFact.RsyslogFacts | lib/facter/security_baseline_syslog.rb:16-31 | the rsyslog facts report the service and package as observed, filepermissions by line 19-20's rule, remotesyslog by line 21-22's, and loghost true exactly when both TCP-input greps found something |
| SyslogFact.SyslogNgFacts | lib/facter/security_baseline_syslog.rb:34-58 | the syslog-ng facts report the service and package as observed, filepermissions by line 37-38's rule, remotesyslog by line 43-47's rule (exactly the stripped `tcp(...)` argument when both `logserv` and `logsend` were found, "none" otherwise), and loghost true exactly when all three greps found something |
| SyslogFact.Report | lib/facter/security_baseline_syslog.rb:14-63 | `syslog_installed` is true exactly when either package is installed; services and packages are reported as observed; the rsyslog and syslog-ng entries are exactly the rsyslog and syslog-ng facts, so every configuration fact follows its line's rule |
| SyslogFact.DaemonHash | lib/facter/security_baseline_syslog.rb:16-32 | a daemon's hash has exactly the keys service, package, filepermissions, remotesyslog and loghost; each leaf is a String or a boolean and holds that fact |
| SyslogFact.ToHash | lib/facter/security_baseline_syslog.rb:14-61 | the report hash has exactly the keys rsyslog, syslog-ng and syslog_installed; rsyslog holds the rsyslog facts' hash and syslog-ng the syslog-ng facts' hash, each with exactly the five daemon keys; no leaf is nil |
| SyslogFact.BuildRsyslog | lib/facter/security_baseline_syslog.rb:16-32 | the rsyslog hash, filled key by key with `val` reassigned for each grep, is the hash of the rsyslog facts |
| SyslogFact.BuildSyslogNg | lib/facter/security_baseline_syslog.rb:34-59 | the syslog-ng hash, filled key by key, is the hash of the syslog-ng facts |
| SyslogFact.SetCode | lib/facter/security_baseline_syslog.rb:12-64 | the corrected `setcode` block returns exactly the hash of the report |
| SyslogFact.SetCodeAsWritten | lib/facter/security_baseline_syslog.rb:19-39 | the block as written always raises: at line 19 when the `$FileCreateMode` grep's result has fewer than two fields, otherwise at line 37 |
| SyslogFact.MissingConfiguration | lib/facter/security_baseline_syslog.rb:19-58 | with no configuration present, the corrected fact reports "none", "none" and false for both daemons, while the block as written raises at line 19 |
| SyslogFact.FixturePermissions | spec/classes/security_baseline_syslog_spec.rb:11 | on the spec file's host the rsyslog filepermissions is "0640", the second word of the `$FileCreateMode` line |
| SyslogFact.FixtureRsyslog | spec/classes/security_baseline_syslog_spec.rb:10-16 | on the spec file's host the rsyslog facts are enabled, installed, "0640", "none" and true |
| SyslogFact.FixtureFacts | spec/classes/security_baseline_syslog_spec.rb:9-25 | on the spec file's host the report holds the fact values the spec file writes down, with syslog_installed true |
| SyslogFact.FixtureReport | spec/classes/security_baseline_syslog_spec.rb:9-25 | on the spec file's host the fact's hash equals the nested hash the spec file writes down |

## Left out

- Running the grep commands (`Facter::Core::Execution.exec`), the grep patterns themselves and whatever `exec` does to the captured output: matching happens in another process, so the string `exec` returns for each grep is an input.
- Line 39 redirects errors to `/sdev/null`, a path that does not exist, so the shell cannot open the redirection and never runs that grep. The corrected model nevertheless takes line 39's capture (`Observations.logserverTcp`) as a free input; as written, only `NoMatch` can occur there (see `SyslogFact.RemoteSyslogWithoutLogserver` and Findings).
- An exec whose command cannot be run at all: the model treats every result as a string, never nil.
- `check_service_is_enabled` and `check_package_installed`: they query the operating system and their source is not part of this model. Their answers are inputs.
- The regular expressions at lines 37 and 39: what they capture is an input (`Capture`). Only one capture group is modelled.
- Fact registration and OS confinement (`Facter.add`, `confine`, lines 10-11), and the `require` paths at lines 1-3: framework and load-path plumbing.
- How Facter reports an exception that escapes `setcode`: the model stops at the raised error.
- Insertion order of Ruby hashes: hashes are modelled as maps, so key order is not captured.
- Ruby values other than nil, booleans, Strings, Hashes and MatchData: the fact and the helpers meet no others.
- The rspec-puppet harness in spec/classes/security_baseline_syslog_spec.rb: its example asserts only that the catalogue compiles, and its `merge` result is discarded, so no test checks the fact. The model uses only the fact values the spec file writes down, as a fixture.

## Findings

| source | as written | input that shows it | evidently intended | confidence | as-written member | corrected member |
|---|---|---|---|---|---|---|
| lib/facter/security_baseline_syslog.rb:19 | `split(...)[1].strip` calls `strip` on nil when the `exec` result has fewer than two fields, so the "none" default of line 20 is never reached | grep returns "" (no `$FileCreateMode` line) | nil-safe extraction, with "none" when there is no second field | high; not executed | SyslogFact.FileCreateModeAsWritten | SyslogFact.FileCreateModePermissions |
| lib/facter/security_baseline_syslog.rb:37-39 | `.match(...).strip` calls `strip` on the MatchData or on nil, which define no `strip` | any configuration, e.g. an `options` line holding `perm(0640)` | strip capture group 1, or "none" when there is no match | high; not executed | SyslogFact.CaptureAsWritten | SyslogFact.SyslogNgPermissions |
| lib/facter/security_baseline_syslog.rb:39 | the grep's errors are redirected to `/sdev/null`, which does not exist, so the shell never runs the grep and `tcp(...)` can never match | any host, e.g. one whose `destination logserver` line holds `tcp("10.0.0.1")`; the pattern is also unquoted, so grep would search for `destination` alone and read `logserver` as a file name | redirect to `/dev/null` and quote the pattern, so the `tcp(...)` argument of the `destination logserver` line can be found | medium; not executed | SyslogFact.RemoteSyslogWithoutLogserver | SyslogFact.SyslogNgRemoteSyslog |
| lib/facter/security_baseline_syslog.rb:41-52 | lines 41, 50 and 52 use `Facter::Code::Execution`, a constant that does not exist; in the block as written line 37 raises first, so this NameError is masked until lines 37 and 39 are fixed | any `exec` result, once lines 19, 37 and 39 are fixed | run the grep through `Facter::Core::Execution` | high; not executed | SyslogFact.FacterCodeRaises | SyslogFact.SetCode |
