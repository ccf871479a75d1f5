# Hugging Face model downloader — decision rules

This project models the logic of `download_model.py`, a command-line tool that
downloads a model snapshot from the Hugging Face Hub into
`<download-dir>/<sanitised model id>/`. Most of the script is glue around the
`huggingface_hub` client. The model covers the four rules that decide what it
does:

- **Directory name** (`Sanitize`). The model id becomes a directory name:
  `/` and `\` turn into `_`, and every other character stays the same.
- **Credential** (`Credentials`). A non-empty `--token` argument comes first.
  Next comes a non-empty `HF_TOKEN` environment variable. After that comes the
  first line of `.env` that starts with `HF_TOKEN=`; the value is whatever
  follows the first `=` once the line is stripped. Otherwise there is no
  token. The hub receives `None` when the token is missing or empty.
- **Summary** (`DownloadSummary`). After a successful download the tool walks
  the model directory. It reports the number of regular files, their total
  size, the first five of them, and "... and N−5 more files" when there are
  more than five.
- **Failures** (`Failures`). An HTTP 404 from the hub means "not found". A 401
  means "access denied". Any other HTTP status is an "HTTP error", and any
  other exception is a "generic error". Every failure exits with status 1.

`Fetcher` combines these rules into one run of `main`. The hub client is an
injected function. It maps the call's arguments to what the client produced:
either the returned path with the directory walk made afterwards, or the error
it raised. `PyStr` models the Python string built-ins the script relies on:
`str.isspace` (with Python's full Unicode whitespace set), `strip`,
`split(sep, 1)`, and single-character `replace`.

Inputs are plain values. The `HF_TOKEN` variable is an `Option<string>`. The
`.env` file is `Option<seq<string>>`: its lines as Python's line iteration
yields them, or `None` when the file does not exist. The directory walk is a
sequence of entries, each with a relative path, an is-a-file flag and a size.

Note: an empty value on an `HF_TOKEN=` line in `.env` is still returned by `get_hf_token`, because that step has no emptiness test. The scan
stops at that line, and later lines are not read. The empty string becomes
`None` only at `token if token else None` (download_model.py:71). See
`Credentials.HubTokenNoneIff`.

## Model

| member | source | states |
|---|---|---|
| `PyStr.IsSpace` | download_model.py:46 | the whitespace set of Python's `str.isspace`, which `strip()` removes; no printable ASCII character is whitespace, and space, tab, newline and carriage return are |
| `PyStr.Strip` | download_model.py:46 | `strip()`: never longer than the input, and the result has no whitespace at either end; the slice it keeps is stated by `StripSlice` from the `LStrip`/`RStrip` contracts |
| `PyStr.StripSlice` | download_model.py:46 | `strip()` keeps a contiguous slice of the input, ending where `rstrip()` ends, and everything cut off on either side is whitespace |
| `PyStr.RStrip` | download_model.py:46 | trailing-whitespace removal: the result is a prefix of the input, everything removed is whitespace, and the result does not end in whitespace |
| `PyStr.LStrip` | download_model.py:46 | leading-whitespace removal: the result is a suffix of the input, everything removed is whitespace, and the result does not start with whitespace |
| `PyStr.SplitOnce` | download_model.py:46 | `split(sep, 1)`: one part (the whole string) iff `sep` does not occur; otherwise the part before the first `sep` (containing no `sep`), then `sep`, then the rest make up the input |
| `PyStr.ReplaceChar` | download_model.py:63 | single-character `replace`: same length, each occurrence of the target becomes the replacement, all other characters unchanged |
| `Sanitize.SafeName` | download_model.py:63 | the directory name has the model id's length and contains no `/` or `\`; each separator becomes `_` and every other character is kept |
| `Sanitize.SafeNameIsCharwise` | download_model.py:63 | the two chained replacements equal one character-by-character mapping (an independent reference definition) |
| `Sanitize.SafeNameFixesSafeNames` | download_model.py:63 | a name with no separators is left unchanged |
| `Sanitize.SafeNameIdempotent` | download_model.py:63 | sanitising twice gives the same as sanitising once |
| `Sanitize.SameDirectoryIff` | download_model.py:63-64 | two model ids map to the same directory iff they have equal length and agree at every position once separators are replaced (both directions) |
| `Sanitize.SeparatorCollidesWithUnderscore` | download_model.py:63-64 | ids that differ only by a separator against `_` are distinct but share a directory |
| `Credentials.Truthy` | download_model.py:35 | Python truthiness of an optional string: it is false exactly for `None` and `""` (the tests at lines 35, 71 and 166) |
| `Credentials.IsTokenLine` | download_model.py:45 | `line.startswith("HF_TOKEN=")` on the line as read, so a line with leading whitespace never matches |
| `Credentials.TokenValue` | download_model.py:46 | for a line starting with `HF_TOKEN=`, the stripped line is exactly `HF_TOKEN=` followed by the returned value (the text after the first `=`, which may itself contain `=`) |
| `Credentials.TokenLineRoundTrip` | download_model.py:44-48 | reading back a written `HF_TOKEN=<v>` line with any whitespace line ending gives `v` when `v` does not end in whitespace |
| `Credentials.DotEnvLookup` | download_model.py:44-48 | no value iff no line starts with `HF_TOKEN=` (both directions) |
| `Credentials.DotEnvLookupFirst` | download_model.py:44-48 | whenever line `i` is the first line starting with `HF_TOKEN=`, the lookup returns that line's `TokenValue`, whatever follows it |
| `Credentials.DotEnvLaterLinesIgnored` | download_model.py:44-48 | once a match exists, appending further lines (matching or not) does not change the result |
| `Credentials.GetHfToken` | download_model.py:31-52 | the environment is the source iff its value is non-empty, and then the token is that value; `.env` is the source iff the variable is unset or empty, the file exists and a line matches, and the token is the lookup's value; it never reports the command line |
| `Credentials.EnvironmentWinsOverDotEnv` | download_model.py:34-37 | a non-empty `HF_TOKEN` is the result whatever `.env` holds; an empty one behaves as unset |
| `Credentials.NoSourceNoToken` | download_model.py:40-52 | with no usable CLI or environment value and no file or no matching line, the result is `Missing` and the token is `None` (a value, not an error) |
| `Credentials.ResolveToken` | download_model.py:166-170 | exact precedence: command line iff `--token` non-empty; environment iff not that and `HF_TOKEN` non-empty; `.env` iff neither and a line matches; missing otherwise; the command-line and environment sources carry their input's value, and `.env` carries the lookup's value |
| `Credentials.CommandLineTokenWins` | download_model.py:166-170 | a non-empty `--token` is the credential regardless of environment and `.env` contents |
| `Credentials.EmptyCommandLineTokenFallsThrough` | download_model.py:166-170 | an empty `--token` resolves exactly as an absent one, i.e. via `get_hf_token` |
| `Credentials.HubToken` | download_model.py:71 | the hub credential is `None` iff the token is `None` or empty, and otherwise is the token itself |
| `Credentials.HubTokenNoneIff` | download_model.py:71 | the hub gets no credential iff neither `--token` nor `HF_TOKEN` is non-empty and `.env` yields no non-empty value; an empty resolved token can only come from `.env` |
| `DownloadSummary.Files` | download_model.py:79-80 | the filtered list contains exactly the walk's regular files and nothing else |
| `DownloadSummary.FilesAppend` | download_model.py:80 | filtering distributes over concatenation, so walk order is preserved |
| `DownloadSummary.FilesOfRegularFiles` | download_model.py:80 | a walk of regular files only is kept unchanged |
| `DownloadSummary.TotalSize` | download_model.py:83 | the total is at least every file's size, and is zero iff every file is empty |
| `DownloadSummary.TotalSizeAppend` | download_model.py:83 | the total of a concatenation is the sum of the totals |
| `DownloadSummary.TotalSizeOrderIndependent` | download_model.py:79-83 | two walks with the same files in any order have the same total |
| `DownloadSummary.Take` | download_model.py:90 | a slice `[:n]` is a prefix of length min(n, len) |
| `DownloadSummary.Summarize` | download_model.py:79-96 | file count = number of regular files; total = sum of their sizes; sample = first min(5, N) files in walk order; the "more files" tail is present iff N > 5 and then reports N − 5 |
| `DownloadSummary.SampleAndTailCoverAllFiles` | download_model.py:90-96 | sample length plus the tail's number equals the file count, and the sample's sizes never exceed the total |
| `DownloadSummary.SummaryOfConcatenation` | download_model.py:79-83 | count and total of a walk split in two are the sums of the parts' counts and totals |
| `DownloadSummary.ThreeFileExample` | download_model.py:79-96 | files of 10, 20 and 30 bytes give count 3, total 60 and no tail |
| `DownloadSummary.SevenFileExample` | download_model.py:90-96 | seven files give a sample of the first five and "2 more files" |
| `Failures.Classify` | download_model.py:100-115 | 404 iff not found; 401 iff access denied; any other HTTP status iff HTTP error (status kept); any non-HTTP exception iff generic error (message kept) |
| `Failures.ClassifyKeepsDetail` | download_model.py:100-115 | distinct errors never receive the same report |
| `Fetcher.PrepareCall` | download_model.py:62-73 | the hub is called with the model id, the revision and the download directory; the subdirectory is `SafeName` of the id (separator-free, as long as the id), and the token is `HubToken` of the resolved one (`None` iff missing or empty) |
| `Fetcher.DownloadModel` | download_model.py:55-115 | returns a path iff the hub call succeeded, that path is the hub's, and a summary exists iff the directory exists and is then `Summarize` of the walk (count, total, first five files, more-files tail); otherwise it exits with the classified error |
| `Fetcher.Run` | download_model.py:165-197 | the credential is the resolved one, the hub call uses it, the result is `download_model`'s on that credential, and the exit status is 0 iff the download returned (1 on every failure) |
| `Fetcher.FailuresExitWithOne` | download_model.py:100-115 | every error the hub raises ends the run with status 1 and its classified report |
| `Fetcher.CommandLineTokenReachesHub` | download_model.py:166-182 | a non-empty `--token` is exactly what the hub receives |
| `Fetcher.NoTokenArgumentIff` | download_model.py:166-182 | the hub is called with `token=None` iff no source supplies a non-empty token |
| `Fetcher.NotFoundScenario` | download_model.py:100-104 | with no credential anywhere and a 404, the run has no credential, calls the hub with `token=None` and the sanitised directory, reports not found and exits with 1 |
| `Fetcher.SuccessScenario` | download_model.py:68-98 | a successful fetch of files of 10, 20 and 30 bytes reports 3 files and 60 bytes with no tail, and exits with 0 |

## Left out

- The hub client itself (`snapshot_download`, and the unused `list_repo_files` and `hf_hub_download` imports): network transfer, authentication and resumption are opaque. Each call is a parameter `HubCall -> FetchResult`.
- Filesystem effects are left out. That covers `mkdir(parents=True, exist_ok=True)`, its idempotence, the `rglob` walk and `stat` calls, and opening `.env`. Their results are inputs: the walk, the `.env` lines, and whether the file and the model directory exist.
- Splitting the `.env` text into lines and decoding it are left out. The lines are given as Python's iteration yields them. Read or decode errors, which would escape `get_hf_token` uncaught, are not modelled.
- `Path.resolve` on the download directory and the path join are left out. The download directory is passed through unchanged.
- A failing `mkdir` is not modelled. Line 65 runs inside the `try`, so the run would end in the generic error of lines 113-115 without calling the hub. The model always calls the hub.
- What the hub client does with `token=None` is not modelled. It may fall back on a token saved locally by a previous login.
- Exceptions raised inside the summary block (a `stat` failing, say) are not modelled. The source would report them as a generic error.
- An HTTP error whose response object is absent is not modelled. The status code is always an integer input.
- The megabyte figures are left out, because they are floating-point divisions used only for log formatting. The text of every log line is left out as well.
- Logging configuration, `argparse` parsing (defaults are the constants `DefaultDownloadDir` and `DefaultRevision`), the success banner and the `KeyboardInterrupt` handler are left out as I/O and library plumbing. `sys.exit(1)` is the outcome value `Exited` together with exit status 1.
- `demos/vllm-modelserving/model-inference.py` is not part of this model. It is a request loop against an inference endpoint, with no logic of its own.
- `example_usage.py` is not part of this model. It is a `subprocess.run` wrapper.
