# Bucket-arrival dispatcher, modelled in Dafny

The repository wires an S3 input bucket to an AWS Batch queue. When an object
is created in the input bucket, a Lambda handler receives the S3 notification
and submits one Batch job for it. This project models that handler:

- `jobname.dfy`, module `JobNames`: the job-name sanitiser
  `re.sub(r'[^a-zA-Z0-9_-]+', '_', key)[:127]`. It is defined run by run
  (`Collapse`, then `Truncate`). A character-at-a-time reading (`Scan`) and a
  single-pass loop (`SanitizeJobName`) are proved equal to it.
- `dispatcher.dfy`, module `Dispatcher`: the notification record, the
  configuration, the three-entry container environment, the `submit_job`
  request, and the handler itself (`Handle`). The handler reads the key and
  bucket of the first record only. It submits, and returns
  `{status: "success", key, job}` or re-raises the submit error unchanged.

Strings are `seq<char>`, where a `char` is a Unicode scalar value. Python's
`str` slicing also counts code points, so `[:127]` is modelled as
`Truncate(_, 127)`.

The Batch client is a parameter, `submit: SubmitRequest -> Result<J, E>`.
`J` is whatever the client returns and `E` is whatever it raises. The three
environment variables OUTPUT_BUCKET, JOBQUEUE and JOBDEF become the immutable
record `Config`.

Behaviour of the handler worth noting:
- An empty object key is not rejected. The job is submitted with the empty
  name (`HandleEmptyKey`).
- The environment is an ordered list of `{name, value}` entries, passed to
  `submit_job` under `containerOverrides`. `Lookup` is the view a container
  gets of it.
- On success the handler returns the whole `submit_job` reply as `job`.
- A notification with no records makes `event['Records'][0]` raise before
  the `try` block, so nothing is submitted. This is `Err(NoRecord)`.

## Model

| member | source | states |
|---|---|---|
| JobNames.RunLength | lambda/bucket_arrival/bucket_arrival.py:22 | the length of the disallowed run at the start of a key: every character inside it is outside `[A-Za-z0-9_-]`, and the next one, if any, is inside (the run is maximal) |
| JobNames.Collapse | lambda/bucket_arrival/bucket_arrival.py:22 | the substitution step never lengthens the key, emits only characters of `[A-Za-z0-9_-]`, and gives the empty string exactly for the empty key |
| JobNames.Truncate | lambda/bucket_arrival/bucket_arrival.py:22 | the `[:127]` slice: a prefix of its input whose length is the smaller of the input length and the limit |
| JobNames.JobName | lambda/bucket_arrival/bucket_arrival.py:22 | the derived job name has at most 127 characters, is never longer than the key, has only characters in `[A-Za-z0-9_-]`, and is empty exactly when the key is empty, with no error; it is a pure function of the key, so the same key always gives the same name |
| JobNames.CollapseFixedIff | lambda/bucket_arrival/bucket_arrival.py:22 | the substitution leaves a key unchanged if and only if every character of it is allowed |
| JobNames.JobNameOfAllowedKey | lambda/bucket_arrival/bucket_arrival.py:22 | a key of allowed characters only is returned whole when it has at most 127 characters, and as its 127-character prefix otherwise |
| JobNames.JobNameIdempotent | lambda/bucket_arrival/bucket_arrival.py:22 | deriving a job name from a derived job name returns it unchanged |
| JobNames.CollapseAppend | lambda/bucket_arrival/bucket_arrival.py:22 | the substitution of a concatenation is the concatenation of the substitutions, except that two disallowed runs meeting at the seam yield one underscore, not two |
| JobNames.CollapseOfRun | lambda/bucket_arrival/bucket_arrival.py:22 | a non-empty key made only of disallowed characters becomes a single underscore |
| JobNames.CollapseMaximalRun | lambda/bucket_arrival/bucket_arrival.py:22 | a maximal run of disallowed characters, with allowed characters or the string ends on both sides, becomes exactly one underscore, and the text on each side is substituted independently |
| JobNames.JobNamePrefixMonotone | lambda/bucket_arrival/bucket_arrival.py:22 | extending a key only extends its substituted form and its job name: the name of a prefix is a prefix of the name |
| JobNames.CollapseKeepsSignificant | lambda/bucket_arrival/bucket_arrival.py:22 | the letters, digits and hyphens of the key all survive the substitution in their original order; none is added and none is lost |
| JobNames.ScanMatchesCollapse | lambda/bucket_arrival/bucket_arrival.py:22 | a character-at-a-time reading of the substitution agrees with the run-by-run definition. That reading emits an underscore only at the first character of each disallowed run |
| JobNames.ScanAppend | lambda/bucket_arrival/bucket_arrival.py:22 | reading a concatenation character by character is reading the first part, then the second part from the state the first part ends in (inside a disallowed run or not) |
| JobNames.SanitizeJobName | lambda/bucket_arrival/bucket_arrival.py:22 | a single pass over the key, followed by the 127-character cut, computes exactly the derived job name |
| JobNames.ExampleSlashesAndSpaces | lambda/bucket_arrival/bucket_arrival.py:22 | `"a//b  c.txt"` becomes `"a_b_c_txt"` |
| JobNames.ExampleReportsKey | lambda/bucket_arrival/bucket_arrival.py:22 | `"reports/jan 2024.csv"` becomes `"reports_jan_2024_csv"` |
| Dispatcher.JobEnvironment | lambda/bucket_arrival/bucket_arrival.py:12-16 | the environment lists exactly `S3_OUTPUT_BUCKET`, `S3_INPUT_BUCKET`, `S3_INPUT_OBJECT` in that order; they map to the configured output bucket, the event bucket and the raw, unsanitised key; no other name is defined |
| Dispatcher.RequestFor | lambda/bucket_arrival/bucket_arrival.py:21-28 | the submit request carries the derived job name, which is within the alphabet and length bound, the configured queue and job definition, and an environment of exactly `S3_OUTPUT_BUCKET`, `S3_INPUT_BUCKET`, `S3_INPUT_OBJECT` in that order, holding the output bucket, the record's bucket and its raw key |
| Dispatcher.Handle | lambda/bucket_arrival/bucket_arrival.py:8-35 | with no record the handler fails before submitting. Otherwise it submits the request built from `Records[0]`. It succeeds exactly when the submit call does, with `{status: "success", key: raw key, job: submit reply}`. It fails exactly when the submit call raises, with that same error |
| Dispatcher.HandleReadsFirstRecordOnly | lambda/bucket_arrival/bucket_arrival.py:9-10 | two notifications with the same first record get the same outcome; later records are never read |
| Dispatcher.HandleReraisesSubmitError | lambda/bucket_arrival/bucket_arrival.py:32-35 | when the submit call raises, the handler raises the same error and returns no response |
| Dispatcher.HandleEmptyKey | lambda/bucket_arrival/bucket_arrival.py:9-22 | an empty object key is not rejected: the job is submitted with the empty name and the empty key in `S3_INPUT_OBJECT` |
| Dispatcher.ScenarioReportsUpload | lambda/bucket_arrival/bucket_arrival.py:9-28 | a CSV upload: the object `reports/jan 2024.csv` in `in-bkt`, with output bucket `out-bkt`, leads to the request `reports_jan_2024_csv` on queue `q1` with definition `jd1` and the three environment entries |

## Left out

- The CDK stack (`research_cdk_example/research_cdk_example_stack.py`), the
  budget-driven queue switch (`research_cdk_example/queue_disabling_budget.py`)
  and their template test. They declare cloud resources and contain no
  handler logic.
- The Batch client (`boto3.client('batch').submit_job`). It is a parameter of
  `Handle`. Batch's own validation of the job name is the client's concern,
  for example of an empty name or one that starts with an underscore. Such a
  rejection reaches the model as an ordinary submit error.
- Reading the environment variables: `Config` is a total record. A missing
  OUTPUT_BUCKET (a `KeyError` before the `try`) and a missing JOBQUEUE or
  JOBDEF (a `KeyError` inside the `try`, printed and re-raised) are not
  modelled.
- Malformed records: a record always carries both a bucket name and an object
  key. A record missing `s3`, `bucket`, `name`, `object` or `key` would raise
  `KeyError` in the source. Only the empty `Records` list is modelled.
- URL decoding: S3 delivers object keys URL-encoded. The handler does not
  decode them, and neither does the model. The key is used as it arrives.
- Logging (`print`, `pprint.pp`) and the Lambda `context` argument. They
  have no effect on the result.
- Python's regular-expression engine: the substitution is specified directly
  by its run structure, not by regex matching.
- Dispatcher.Handle: a function cannot count its calls to `submit`. "At most
  one submit call per invocation" is shown only by the body, which applies
  `submit` once to one request.
