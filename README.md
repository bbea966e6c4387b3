# django-abstweet: the tweet record and its builder

This project models the core of `abstweet/models.py`: the abstract tweet
record, the builder `AbstractTweet.create_from_json` that turns a parsed
Twitter status object into such a record, the derived `is_retweet`
property, and the three read helpers `get_created_in_range`,
`get_earliest_created_at` and `get_latest_created_at`.

- `json.dfy` (`Json`): a parsed JSON value (`Null`, `Bool`, `Int`, `Str`,
  `Arr`, `Obj`) and Python's `dict.get`, where an absent key and a JSON
  `null` both read as `None`.
- `tweets.dfy` (`Tweets`): the record `Tweet`, the failure kinds
  `BuildError`, the reference builder `Build`, the imperative
  `CreateFromJson`, and the lemmas about what construction promises.
- `queries.dfy` (`Queries`): the read helpers over a `seq<Tweet>` that
  stands for the table.
- `wrappers.dfy` (`Wrappers`): `Option` and a failure-compatible `Result`.

Python's dynamic typing is kept. The fields the builder copies hold the
parsed `Value` unchanged, because nothing converts or checks them at
construction. Each failure Python would raise is a `BuildError`:
- `MissingKey` for a `KeyError`;
- `NotAnObject` when `user.get(...)` or `retweeted_status['id']` is applied to a non-object;
- `NotComparable` when a count that is a string, list or object is compared with 0;
- `UnparsableDate` when `parse_datetime` fails.

`Build` performs the lookups in the order Python evaluates them, so the
first failing one decides which error is reported. `CreateFromJson` keeps
the source's shape. It gathers the four counts in a map. `SanitizeCounts`
then overwrites the negative ones in a loop, in the dict's insertion order.
Finally `Construct` builds the record. `CreateFromJson` is proved to
return exactly `Build`'s result. `Record` is the record `Construct` gives
a buildable message once its counts are sanitised, without the error
handling.

Boolean counts are kept, as in Python, where `True < 0` is false. The
date parser is a parameter `parse: string -> Option<Timestamp>`. It stands
for `email.utils.parsedate` together with the time-zone setting. A
`created_at` that is not a string also fails to parse. `Timestamp` is an
`int`, which gives it a total order.

## Model

| member | source | states |
|---|---|---|
| `Json.Get` | abstweet/models.py:97 | `dict.get`: `None` exactly when the key is absent or maps to null, otherwise the stored value |
| `Tweets.IsRetweet` | abstweet/models.py:66-68 | the `is_retweet` property: a record is a retweet exactly when `retweeted_status_id` is not `None`; `RetweetDetection` states what this means for a built record |
| `Tweets.Require` | abstweet/models.py:94-106 | `m[key]`: succeeds exactly when the key is present, with the stored value, and otherwise fails with a `MissingKey` naming the key's path |
| `Tweets.RawCounts` | abstweet/models.py:82-87 | the four counts read with `.get`, in the dict's order; none of them is a JSON null |
| `Tweets.Build` | abstweet/models.py:71-122 | the reference `create_from_json`, written as one chain of lookups in Python's evaluation order; the lemmas below state what it promises, and `CreateFromJson` is proved equal to it |
| `Tweets.Buildable` | abstweet/models.py:76-121 | the condition for construction to succeed: required keys present, `user` an object, every count comparable with 0, a parsable date, and any nested status an object with an `id`; `BuildSucceedsIff` proves it is exactly that |
| `Tweets.Record` | abstweet/models.py:92-122 | the record a buildable message yields, given by `Construct` with the sanitised counts; `BuildShape` proves `Build` returns it |
| `Tweets.Sanitize` | abstweet/models.py:88-90 | one count: fails exactly on an incomparable value; the result is `None` exactly when the value is absent, null or a negative number, and otherwise is the value unchanged |
| `Tweets.AsObject` | abstweet/models.py:85 | `user.get` succeeds exactly when `user` is an object |
| `Tweets.ParseDate` | abstweet/models.py:106 | succeeds exactly when `created_at` is a string the parser accepts, and yields the parser's timestamp |
| `Tweets.RetweetedId` | abstweet/models.py:77-79 | absent or null `retweeted_status` gives `None`; an object gives its `id` (null reads as `None`), a missing `id` is a `MissingKey`, a non-object fails |
| `Tweets.Construct` | abstweet/models.py:92-122 | the keyword arguments of `cls(...)`: succeed exactly when the remaining required keys are present, the date parses and any non-null nested status is an object with an `id`, and then give, field by field, the record with those values and the given counts |
| `Tweets.SanitizeCounts` | abstweet/models.py:88-90 | the counts loop: succeeds exactly when every count is comparable, and then leaves each count as its sanitised value with the same keys; otherwise fails on the first incomparable count in dict order |
| `Tweets.CreateFromJson` | abstweet/models.py:71-122 | gathering the counts, running the loop and constructing the record return exactly the reference builder's result, error included |
| `Tweets.FirstIncomparableCountFails` | abstweet/models.py:82-90 | the first count in dict order that cannot be compared with 0 names the construction error |
| `Tweets.SanitisedCountsBuild` | abstweet/models.py:82-122 | once all four counts are sanitised, construction continues with the sanitised values |
| `Tweets.BuildSucceedsIff` | abstweet/models.py:76-121 | construction succeeds if and only if every required key is present, `user` is an object, every count is comparable, the date parses and any nested status is an object with an `id` |
| `Tweets.BuildShape` | abstweet/models.py:92-122 | a buildable message builds to its field-by-field record |
| `Tweets.MissingRequiredKeyFails` | abstweet/models.py:94-106 | a missing `id`, `text`, `truncated`, `created_at` or `user`, or a missing `id`, `screen_name`, `name` or `verified` in the user, makes construction fail |
| `Tweets.FailureNamesMissingKey` | abstweet/models.py:76-121 | a missing `user` is the error reported, and every `MissingKey` error names a key the message lacks |
| `Tweets.MissingKeyReported` | abstweet/models.py:76-106 | once `user` is an object and every count compares with 0, a missing required key of the message or of its user is reported as a `MissingKey` that names a key the message lacks |
| `Tweets.UnparsableDateReported` | abstweet/models.py:76-106 | with every required key present, `user` an object and every count comparable, a `created_at` that is not a string the parser accepts is reported as `UnparsableDate`, before the nested status is looked at |
| `Tweets.RequiredFieldsCopied` | abstweet/models.py:94-106 | on success the required keys are present and copied unchanged; `created_at` is the parsed date |
| `Tweets.OptionalFieldsCopied` | abstweet/models.py:97-120 | `lang`, `filter_level`, `in_reply_to_status_id`, `utc_offset` and `time_zone` are `None` exactly when absent or null and otherwise equal the message's value |
| `Tweets.CountsSanitised` | abstweet/models.py:82-117 | each of the four counts is `None` when its own source value is absent or negative and equals it otherwise |
| `Tweets.PresentCountsNonNegative` | abstweet/models.py:88-90 | every present count is a non-negative integer or a boolean |
| `Tweets.NegativeTweetCountClearsOnlyIt` | abstweet/models.py:83-90 | making `favorite_count` or `retweet_count` negative still builds, clears that count and leaves every other field unchanged |
| `Tweets.NegativeUserCountClearsOnlyIt` | abstweet/models.py:85-90 | the same for the user's `followers_count` and `friends_count` |
| `Tweets.NegativeTweetCountEffect` | abstweet/models.py:83-90 | on the field-by-field record, a negative tweet-level count clears only that count |
| `Tweets.NegativeUserCountEffect` | abstweet/models.py:85-90 | on the field-by-field record, a negative user-level count clears only that count |
| `Tweets.ConstructIgnoresUserEntry` | abstweet/models.py:92-122 | the keyword arguments of `cls(...)` do not depend on `raw['user']` except through the user object already looked up |
| `Tweets.ConstructIgnoresUserCount` | abstweet/models.py:85-90 | changing the user's `followers_count` or `friends_count` does not change the keyword arguments except through the sanitised counts |
| `Tweets.NegativeUserCountBuildable` | abstweet/models.py:85-90 | a negative user count does not stop a buildable message from building |
| `Tweets.RetweetDetection` | abstweet/models.py:66-79 | `retweeted_status_id` is `None` without a nested status and its `id` otherwise; `is_retweet` holds exactly when the nested status has a non-null `id` |
| `Tweets.RetweetWithoutIdFails` | abstweet/models.py:121 | a nested status object without `id` makes construction fail |
| `Tweets.ExampleStatusBuilds` | abstweet/models.py:71-122 | the worked example with `favorite_count` -1 and `followers_count` -5 builds with those counts `None`, `friends_count` 3, `tweet_id` 42 and no retweet |
| `Queries.CreatedInRange` | abstweet/models.py:125-129 | exactly the records with `start <= created_at < end`, each with its multiplicity in the store |
| `Queries.EarliestCreatedAt` | abstweet/models.py:132-137 | `None` exactly on an empty store; otherwise a `created_at` of the store that is at most every record's |
| `Queries.LatestCreatedAt` | abstweet/models.py:140-145 | `None` exactly on an empty store; otherwise a `created_at` of the store that is at least every record's |
| `Queries.RangeBounds` | abstweet/models.py:129 | a record at `start` is selected, a record at `end` is not |
| `Queries.EmptyRange` | abstweet/models.py:129 | an empty or inverted range selects nothing |
| `Queries.EarliestNotAfterLatest` | abstweet/models.py:132-145 | on a non-empty store the earliest time is at most the latest |
| `Queries.FullRangeIsStore` | abstweet/models.py:125-145 | the range from the earliest time to just past the latest is the whole store, in order |
| `Queries.AllInRange` | abstweet/models.py:129 | a range that covers every record returns the store unchanged |

## Left out

- `count_approx` (abstweet/models.py:147-164): it runs a MySQL `SHOW TABLE STATUS` query through a database cursor, or an ORM count, and its result is only an estimate. This is foreign I/O.
- `parse_datetime` (abstweet/models.py:15-19): it is the parameter `parse`. RFC 5322 date parsing, keeping the first six fields, and attaching the configured time zone are not modelled.
- The module globals `DEBUG` and `USE_TZ` (abstweet/models.py:10-11): nothing in the module reads them.
- `settings.USE_TZ` and `current_timezone` (abstweet/models.py:13, 16-17): `parse_datetime` reads them when it chooses whether to attach a time zone, which belongs to the parameter `parse`.
- Python versions before 3.7: the model follows Python 3.7 and later. There, comparing a string, list or dict with 0 raises `TypeError`, which Python 2 does not do. The counts dict is also iterated in insertion order, which Python guarantees only from 3.7.
- The Django field declarations (abstweet/models.py:34-64): the database enforces `max_length`, nullability and non-negativity when a record is saved. The builder does none of this, so the record holds the parsed values unchecked.
- The auto-increment primary key `id` (abstweet/models.py:34): the database assigns it. That line also names `fields`, which the module never imports.
- `cls.objects` querysets: their ordering is up to the database. The query helpers run over a sequence, in the store's order.
- Floating-point JSON numbers are not part of `Value`.
- The Django model constructor `cls(...)` is taken to store its keyword arguments as given.
