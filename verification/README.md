# AutoDocGPT README generator — a Dafny model

AutoDocGPT is a single script (`generate_readme.py`) that builds a project README.
It reads a list of file paths and a `package.json`, then drops stylesheet and JSON paths from the list.
It labels the project as using the Next.js app router, the pages router or plain React, and renders the dependencies, files and scripts as bullet lists.
It then asks a remote text-generation service for six section texts, one request per section, retrying each request with exponential backoff.
Finally it assembles the sections under fixed headings and keeps the first 200 lines.

This project models the deterministic parts of that script and proves what they promise:

- `Text` (`text.dfy`): the string operations the script relies on. These are Python's `str.endswith`, the `in` substring test, `"\n".join` and `str.splitlines`, plus the "first n lines" cut built from the last two. It also holds the round-trip and prefix lemmas about them.
- `Paths` (`paths.dfy`): `read_and_filter_files` and `detect_router_type`.
- `Readme` (`readme.dfy`): the three bullet lists, the README template with the six section texts inserted, and the 200-line cut.
- `Retry` (`retry_with_backoff`, `retry.dfy`): a method with a loop. The operation is a function from the attempt index to its outcome, either a value or an error. The method returns what the Python function returns or raises, the number of calls made and the base delay of every sleep.

The six section texts returned by the service are inputs of `Readme.GenerateReadme`. Python dictionaries keep insertion order, so the dependency and script mappings are sequences of `Entry` values in manifest order.

The three rendered lists only go into the prompts (`generate_readme.py:56-91`). The document holds only the returned section texts, so it contains no dependency, file or script bullet of its own. When `retries <= 0`, `retry_with_backoff` makes no call and returns `None`.

## Model

| member | source | states |
|---|---|---|
| `Text.Contains` | generate_readme.py:33 | `Contains(s, sub)` holds exactly when `sub` occurs in `s` at some index. This is the meaning of Python's `sub in s`. |
| `Text.SplitLinesJoin` | generate_readme.py:52-54 | Lines that contain no newline, with a non-empty last one, come back unchanged when joined with `"\n"` and split again. The joined text does not end in a newline. |
| `Text.JoinLines` | generate_readme.py:52-54 | Python's `"\n".join(lines)`: the empty list gives the empty string and a single line is returned as it is. `Text.SplitLinesJoin` states the round trip with `SplitLines`. |
| `Text.SplitLines` | generate_readme.py:135 | Python's `s.splitlines()` with `'\n'` as the only line break: no line contains a newline, and a non-empty text has at least one line. `Text.SplitLinesJoin` states the round trip with `JoinLines`. |
| `Text.FirstLines` | generate_readme.py:135 | `"\n".join(s.splitlines()[:n])`: keeping no lines, or cutting the empty text, gives the empty string. The rest of its contract is stated by `Text.FirstLinesLines` and `Text.FirstLinesPrefix`. |
| `Text.FirstLinesLines` | generate_readme.py:135 | `"\n".join(s.splitlines()[:n])` has at most `n` lines, and its lines open the lines of `s`. When `s` has at least `n > 0` lines, splitting the result at every newline gives exactly the first `n` lines of `s`. |
| `Text.FirstLinesPrefix` | generate_readme.py:135 | The cut text is a string prefix of `s`. When `s` has at most `n` lines, the cut text is `s` without its final newline. |
| `Paths.Displayed` | generate_readme.py:30 | `not path.endswith((".css", ".json"))`, a case-sensitive suffix test. `Paths.FilterCounts` states which paths the filter keeps by this test. |
| `Paths.FilterPaths` | generate_readme.py:29-30 | Every kept path ends in neither `.css` nor `.json`, and the result is no longer than the input. |
| `Paths.FilterCounts` | generate_readme.py:30 | Each displayed path is kept exactly as many times as it occurs, so duplicates are not removed. Every `.css` or `.json` path is dropped. A path is in the result iff it is in the input and displayed. |
| `Paths.FilterAppend` | generate_readme.py:30 | Filtering a concatenation is the concatenation of the filtered parts, so kept paths keep their relative order. |
| `Paths.FilterKeepsDisplayed` | generate_readme.py:30 | A list whose paths are all displayed is returned unchanged. |
| `Paths.FilterIdempotent` | generate_readme.py:30 | Filtering twice equals filtering once. |
| `Paths.AnyContains` | generate_readme.py:33-35 | `any(sub in path for path in paths)` holds exactly when some path of the list has `sub` as a substring. |
| `Paths.DetectRouterType` | generate_readme.py:32-37 | The result is `"app-router"` iff some path contains `/app/`, whatever `/pages/` paths there are. It is `"pages-router"` iff no path contains `/app/` and some path contains `/pages/`. It is `"react"` iff neither occurs, which includes the empty list. |
| `Paths.RouterTypeIgnoresOrder` | generate_readme.py:32-37 | Two lists with the same paths get the same label, whatever the order and repetition of their entries. |
| `Readme.RenderDependencies` | generate_readme.py:52 | An empty dependency mapping renders as the empty string. |
| `Readme.RenderFiles` | generate_readme.py:53 | An empty path list renders as the empty string. |
| `Readme.RenderScripts` | generate_readme.py:54 | An empty script mapping renders as the empty string. |
| `Readme.RenderDependenciesLines` | generate_readme.py:52 | For single-line entries, the dependency list has one line per dependency, in mapping order. Line `i` is ``- **name**: version``. There is no trailing newline. |
| `Readme.RenderFilesLines` | generate_readme.py:53 | For paths without a newline, the file list has one line per path, in list order. Line `i` is ``- `path` ``. There is no trailing newline. |
| `Readme.RenderScriptsLines` | generate_readme.py:54 | For single-line entries, the script list has one line per script, in mapping order. Line `i` is ``- **name**: `command` ``. There is no trailing newline. |
| `Readme.PreambleSplit` | generate_readme.py:93-99 | The title block's lines are a blank line, the centred `div`, the `<h1>` line with the project name, the `<p>` line with the description, and `</div>`. |
| `Readme.SectionSplit` | generate_readme.py:99-103 | A section's lines are a blank line, the `---` rule, a blank line, `# heading`, a blank line, then the lines of its body. |
| `Readme.ReadmeContentLines` | generate_readme.py:93-134 | The document's lines are the title block followed by About the Project, Technologies and Libraries, Key Features, File Structure, Getting Started and Scripts and Commands, in that order. Each heading is preceded by its rule and followed by its body's lines. |
| `Readme.ReadmeContent` | generate_readme.py:93-134 | The `readme_content` template: the document opens with the title block and ends in a newline, the one that closes the Scripts and Commands body. `Readme.ReadmeContentLines` states its lines: the title block, then the six sections in source order. |
| `Readme.GenerateReadme` | generate_readme.py:93-135 | The result has at most 200 lines. It is a string prefix of the assembled document, and its lines are a prefix of the document's lines. When the document has at least 200 lines, splitting the result at every newline gives exactly the document's first 200 lines. When it has at most 200 lines, the result is the whole document less its final newline, so no section is dropped. |
| `Readme.ShortDocumentIsNotCut` | generate_readme.py:93-135 | When no input spans several lines, the document has 41 lines. The result is then the whole document less its final newline, so no section is dropped. |
| `Retry.RetryWithBackoff` | generate_readme.py:7-18 | Fail `k` times and then succeed with `k < retries`: the success value is returned, with `k + 1` calls and `k` sleeps of base delays `backoff * 2^i`. All `retries` attempts fail: the last error is re-raised, with `retries` calls and `retries - 1` sleeps. `retries <= 0`: no call and `None`. The loop falls through to the implicit `None` (`NoneReturned`) iff `retries <= 0`. |
| `Retry.FirstSuccessOrAllFail` | generate_readme.py:10-18 | Within `n` attempts, either all fail or there is a first success. The cases of `RetryWithBackoff`'s contract therefore cover every operation. |
| `Retry.BaseDelayAt` | generate_readme.py:15 | The base delay before retry `i + 1` is `backoff * 2^i`. |
| `Retry.BaseDelaysDouble` | generate_readme.py:15 | Each base delay is twice the one before it. |
| `Retry.TotalBaseDelay` | generate_readme.py:15 | The first `k` base delays add up to `backoff * (2^k - 1)`. |
| `Retry.DefaultSchedule` | generate_readme.py:7-16 | With the defaults (5 attempts, backoff 1), an operation that always fails sleeps base delays 1, 2, 4 and 8, 15 seconds in all before jitter. |

## Left out

- The remote client and `generate_section` (`generate_readme.py:3-5`, `generate_readme.py:39-49`) are network calls. Their six results are the `Sections` parameter of `Readme.GenerateReadme`.
- The prompt templates (`generate_readme.py:56-91`) only shape what is sent to the service. The model has the three rendered lists that fill them, but not the prompt wording. The `dependencies`, `scripts`, `file_paths` and `router_type` arguments of `generate_readme` therefore do not appear in `Readme.GenerateReadme`.
- `parse_package_json` and `main` (`generate_readme.py:20-27`, `generate_readme.py:137-152`) are file I/O and JSON loading. This includes the Unicode-dependent `str.capitalize` of the project name.
- `Text.SplitLines`: Python's `str.splitlines` also breaks lines at `\r`, `\r\n`, `\x0b`, `\x0c`, `\x1c`-`\x1e`, `\x85`, `\u2028` and `\u2029`. The model breaks lines at `'\n'` only. It keeps Python's rule that a final line break does not start an empty line.
- `Retry.RetryWithBackoff`: `time.sleep` and the `random.uniform(0, 1)` jitter are left out. Only the integer base delay `backoff * 2^attempt` of each sleep is recorded. A non-integer `backoff_in_seconds` is not modelled.
- `Retry.RetryWithBackoff`: a negative `backoff_in_seconds` makes `time.sleep` raise `ValueError` at the first sleep whose time is negative, ending the loop early. The model does not capture that error; it records the negative base delay and retries. The script itself only uses the default backoff of 1.
- `Retry.RetryWithBackoff`: every failure of the operation is modelled as an exception that `except Exception` catches. `BaseException`s that are not `Exception`s, such as `KeyboardInterrupt`, would escape at once; they are not modelled.
- `Readme.RenderDependencies` and `Readme.RenderScripts`: manifest values are taken to be strings already. The `str()` conversion an f-string applies to other JSON values is not modelled.
