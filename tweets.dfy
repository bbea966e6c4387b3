/** The tweet record of abstweet/models.py and its builder `create_from_json`. */
module Tweets {
  import opened Wrappers
  import opened Json

  /** `created_at` after parsing: an opaque, totally ordered instant. */
  type Timestamp = int

  /** Why construction fails; Python raises the matching exception. */
  datatype BuildError =
    | MissingKey(path: string)      // KeyError on a required key
    | NotAnObject(path: string)     // AttributeError / TypeError: `.get` or `[...]` on a non-object
    | NotComparable(key: string)    // TypeError: `count < 0` on a string, list or object
    | UnparsableDate                // parse_datetime failed

  /** One tweet record. Fields the builder copies keep the parsed value as
      is (no schema coercion happens at construction); nullable fields are
      `None` where Python would hold `None`. The auto-increment primary key
      is assigned by the database and is not part of the record. */
  datatype Tweet = Tweet(
    tweetId: Value,
    text: Value,
    truncated: Value,
    lang: Option<Value>,
    userId: Value,
    userScreenName: Value,
    userName: Value,
    userVerified: Value,
    createdAt: Timestamp,
    userUtcOffset: Option<Value>,
    userTimeZone: Option<Value>,
    filterLevel: Option<Value>,
    favoriteCount: Option<Value>,
    retweetCount: Option<Value>,
    userFollowersCount: Option<Value>,
    userFriendsCount: Option<Value>,
    inReplyToStatusId: Option<Value>,
    retweetedStatusId: Option<Value>)

  /** The derived `is_retweet` property. */
  predicate IsRetweet(t: Tweet) {
    t.retweetedStatusId != None
  }

  /** The four engagement counts, in the order the `counts` dict lists them. */
  const CountKeys: seq<string> :=
    ["favorite_count", "retweet_count", "user_followers_count", "user_friends_count"]

  /** `m[key]`, failing with the key's path when it is absent. */
  function Require(m: Object, key: string, path: string): (r: Result<Value, BuildError>)
    ensures r.Success? <==> key in m
    ensures r.Success? ==> r.value == m[key]
    ensures r.Failure? ==> r.error == MissingKey(path)
  {
    if key in m then Success(m[key]) else Failure(MissingKey(path))
  }

  /** The `user` value must be an object for `user.get(...)` to work. */
  function AsObject(v: Value, path: string): (r: Result<Object, BuildError>)
    ensures r.Success? <==> v.Obj?
    ensures r.Success? ==> r.value == v.fields
    ensures r.Failure? ==> r.error == NotAnObject(path)
  {
    if v.Obj? then Success(v.fields) else Failure(NotAnObject(path))
  }

  /** The body of the sanitising loop for one count: `None` stays `None`, a
      negative number becomes `None`, any other number or boolean is kept,
      and comparing a string, list or object with 0 raises. A JSON null is
      Python's `None`. */
  function Sanitize(key: string, v: Option<Value>): (r: Result<Option<Value>, BuildError>)
    ensures r.Failure? <==> v.Some? && (v.value.Str? || v.value.Arr? || v.value.Obj?)
    ensures r.Failure? ==> r.error == NotComparable(key)
    ensures r.Success? ==> (r.value.None? <==> v.None? || v.value.Null? || (v.value.Int? && v.value.i < 0))
    ensures r.Success? && r.value.Some? ==> r.value == v
  {
    match v
    case None | Some(Null) => Success(None)
    case Some(Int(n)) => if n < 0 then Success(None) else Success(v)
    case Some(Bool(_)) => Success(v)
    case Some(_) => Failure(NotComparable(key))
  }

  /** `parse_datetime(raw['created_at'])`; `parse` stands for the RFC 5322
      date parser and the time-zone setting. */
  function ParseDate(v: Value, parse: string -> Option<Timestamp>): (r: Result<Timestamp, BuildError>)
    ensures r.Success? <==> v.Str? && parse(v.s).Some?
    ensures r.Success? ==> r.value == parse(v.s).value
    ensures r.Failure? ==> r.error == UnparsableDate
  {
    if v.Str? && parse(v.s).Some? then Success(parse(v.s).value) else Failure(UnparsableDate)
  }

  /** `retweeted_status['id']`, where an absent or null `retweeted_status`
      has been replaced by `{'id': None}`. */
  function RetweetedId(status: Option<Value>): (r: Result<Option<Value>, BuildError>)
    ensures r.Failure? <==>
      status.Some? && status.value != Null && (!status.value.Obj? || "id" !in status.value.fields)
    ensures r.Success? && (status.None? || status.value == Null) ==> r.value == None
    ensures r.Success? && status.Some? && status.value.Obj? ==> r.value == Get(status.value.fields, "id")
    ensures r.Failure? && status.value.Obj? ==> r.error == MissingKey("retweeted_status.id")
    ensures r.Failure? && !status.value.Obj? ==> r.error == NotAnObject("retweeted_status")
  {
    match status
    case None | Some(Null) => Success(None)
    case Some(Obj(m)) =>
      if "id" in m then Success(Get(m, "id")) else Failure(MissingKey("retweeted_status.id"))
    case Some(_) => Failure(NotAnObject("retweeted_status"))
  }

  /** The reference definition of `create_from_json`: every lookup in the
      order Python evaluates it, so that the first failing one decides the
      error. */
  function Build(raw: Object, parse: string -> Option<Timestamp>): (r: Result<Tweet, BuildError>)
  {
    var user :- Require(raw, "user", "user");
    var status := Get(raw, "retweeted_status");
    var u :- AsObject(user, "user");
    var favorites :- Sanitize("favorite_count", Get(raw, "favorite_count"));
    var retweets :- Sanitize("retweet_count", Get(raw, "retweet_count"));
    var followers :- Sanitize("user_followers_count", Get(u, "followers_count"));
    var friends :- Sanitize("user_friends_count", Get(u, "friends_count"));
    Construct(raw, u, status, favorites, retweets, followers, friends, parse)
  }

  /** The keyword arguments of `cls(...)`, evaluated left to right, once
      the counts are sanitised. */
  function Construct(raw: Object, u: Object, status: Option<Value>,
                     favorites: Option<Value>, retweets: Option<Value>,
                     followers: Option<Value>, friends: Option<Value>,
                     parse: string -> Option<Timestamp>): (r: Result<Tweet, BuildError>)
    ensures r.Success? <==>
      && {"id", "text", "truncated", "created_at"} <= raw.Keys && UserRequired <= u.Keys
      && raw["created_at"].Str? && parse(raw["created_at"].s).Some?
      && (status.Some? && status.value != Null ==> status.value.Obj? && "id" in status.value.fields)
    ensures r.Success? ==> var t := r.value;
      && t.tweetId == raw["id"] && t.text == raw["text"] && t.truncated == raw["truncated"]
      && t.userId == u["id"] && t.userScreenName == u["screen_name"]
      && t.userName == u["name"] && t.userVerified == u["verified"]
      && t.createdAt == parse(raw["created_at"].s).value
      && t.lang == Get(raw, "lang") && t.filterLevel == Get(raw, "filter_level")
      && t.inReplyToStatusId == Get(raw, "in_reply_to_status_id")
      && t.userUtcOffset == Get(u, "utc_offset") && t.userTimeZone == Get(u, "time_zone")
      && t.favoriteCount == favorites && t.retweetCount == retweets
      && t.userFollowersCount == followers && t.userFriendsCount == friends
      && t.retweetedStatusId == RetweetedId(status).value
  {
    var tweetId :- Require(raw, "id", "id");
    var text :- Require(raw, "text", "text");
    var truncated :- Require(raw, "truncated", "truncated");
    var userId :- Require(u, "id", "user.id");
    var screenName :- Require(u, "screen_name", "user.screen_name");
    var name :- Require(u, "name", "user.name");
    var verified :- Require(u, "verified", "user.verified");
    var created :- Require(raw, "created_at", "created_at");
    var createdAt :- ParseDate(created, parse);
    var retweetedId :- RetweetedId(status);
    Success(Tweet(
      tweetId, text, truncated, Get(raw, "lang"),
      userId, screenName, name, verified,
      createdAt, Get(u, "utc_offset"), Get(u, "time_zone"),
      Get(raw, "filter_level"),
      favorites, retweets, followers, friends,
      Get(raw, "in_reply_to_status_id"), retweetedId))
  }

  /** The count values read from the message, in `CountKeys` order. */
  function RawCounts(raw: Object, u: Object): (r: seq<Option<Value>>)
    ensures |r| == |CountKeys|
    // `.get` never yields a JSON null: it reads as an absent count
    ensures forall j :: 0 <= j < |r| ==> r[j] != Some(Null)
  {
    [Get(raw, "favorite_count"), Get(raw, "retweet_count"),
     Get(u, "followers_count"), Get(u, "friends_count")]
  }

  /** The `for key in counts` loop: it overwrites every negative count with
      `None`, in the dict's insertion order, and raises on the first count
      that cannot be compared with 0. */
  method SanitizeCounts(original: map<string, Option<Value>>) returns (r: Result<map<string, Option<Value>>, BuildError>)
    // the source's dict holds exactly the four counts
    requires original.Keys == set k | k in CountKeys
    // the values come from `.get`, where a JSON null already reads as `None`
    requires forall k :: k in original ==> original[k] != Some(Null)
    ensures r.Success? <==> forall j :: 0 <= j < |CountKeys| ==> Comparable(original[CountKeys[j]])
    ensures r.Success? ==> r.value.Keys == original.Keys
    ensures r.Success? ==> forall j :: 0 <= j < |CountKeys| ==>
      Sanitize(CountKeys[j], original[CountKeys[j]]) == Success(r.value[CountKeys[j]])
    ensures r.Failure? ==> exists i :: (0 <= i < |CountKeys| && r.error == NotComparable(CountKeys[i])
      && !Comparable(original[CountKeys[i]])
      && forall j :: 0 <= j < i ==> Comparable(original[CountKeys[j]]))
  {
    var counts := original;
    var i := 0;
    while i < |CountKeys|
      invariant 0 <= i <= |CountKeys|
      invariant counts.Keys == original.Keys
      invariant forall j :: 0 <= j < i ==>
        Comparable(original[CountKeys[j]]) &&
        Sanitize(CountKeys[j], original[CountKeys[j]]) == Success(counts[CountKeys[j]])
      invariant forall j :: i <= j < |CountKeys| ==> counts[CountKeys[j]] == original[CountKeys[j]]
    {
      var key := CountKeys[i];
      assert forall j :: 0 <= j < |CountKeys| && j != i ==> CountKeys[j] != key;
      match counts[key] {
        case None | Some(Null) =>
        case Some(Int(n)) =>
          if n < 0 {
            counts := counts[key := None];
          }
        case Some(Bool(_)) =>
        case Some(Str(_)) | Some(Arr(_)) | Some(Obj(_)) =>
          return Failure(NotComparable(key));
      }
      i := i + 1;
    }
    return Success(counts);
  }

  /** `create_from_json` as the source writes it: the counts are gathered in
      a dict that the loop overwrites in place before the record is built. */
  method CreateFromJson(raw: Object, parse: string -> Option<Timestamp>) returns (r: Result<Tweet, BuildError>)
    ensures r == Build(raw, parse)
  {
    var user :- Require(raw, "user", "user");
    var status := Get(raw, "retweeted_status");
    var u :- AsObject(user, "user");
    var original := RawCounts(raw, u);
    var counts := map[
      CountKeys[0] := original[0], CountKeys[1] := original[1],
      CountKeys[2] := original[2], CountKeys[3] := original[3]];
    var sanitised := SanitizeCounts(counts);
    if sanitised.Failure? {
      ghost var i :| 0 <= i < |CountKeys| && sanitised.error == NotComparable(CountKeys[i]) &&
        !Comparable(counts[CountKeys[i]]) &&
        forall j :: 0 <= j < i ==> Comparable(counts[CountKeys[j]]);
      FirstIncomparableCountFails(raw, parse, i);
      return Failure(sanitised.error);
    }
    var c := sanitised.value;
    SanitisedCountsBuild(raw, parse, c[CountKeys[0]], c[CountKeys[1]], c[CountKeys[2]], c[CountKeys[3]]);
    r := Construct(raw, u, status,
      c["favorite_count"], c["retweet_count"],
      c["user_followers_count"], c["user_friends_count"], parse);
  }

  /** The sanitising loop stops at the first count, in dict order, that
      cannot be compared with 0, and that count names the error. */
  lemma FirstIncomparableCountFails(raw: Object, parse: string -> Option<Timestamp>, i: nat)
    requires "user" in raw && raw["user"].Obj?
    requires i < |CountKeys|
    requires forall j :: 0 <= j < i ==> Comparable(RawCounts(raw, raw["user"].fields)[j])
    requires !Comparable(RawCounts(raw, raw["user"].fields)[i])
    ensures Build(raw, parse) == Failure(NotComparable(CountKeys[i]))
  {
    var cs := RawCounts(raw, raw["user"].fields);
    if i > 0 { assert Comparable(cs[0]); }
    if i > 1 { assert Comparable(cs[1]); }
    if i > 2 { assert Comparable(cs[2]); }
  }

  /** Once every count is sanitised, the record is built from the
      sanitised values. */
  lemma SanitisedCountsBuild(raw: Object, parse: string -> Option<Timestamp>,
                             favorites: Option<Value>, retweets: Option<Value>,
                             followers: Option<Value>, friends: Option<Value>)
    requires "user" in raw && raw["user"].Obj?
    requires var cs := RawCounts(raw, raw["user"].fields);
      && Sanitize(CountKeys[0], cs[0]) == Success(favorites)
      && Sanitize(CountKeys[1], cs[1]) == Success(retweets)
      && Sanitize(CountKeys[2], cs[2]) == Success(followers)
      && Sanitize(CountKeys[3], cs[3]) == Success(friends)
    ensures Build(raw, parse) == Construct(raw, raw["user"].fields, Get(raw, "retweeted_status"),
      favorites, retweets, followers, friends, parse)
  {
  }

  // ---------------------------------------------------------------------
  // What `create_from_json` promises, stated independently of `Build`.

  /** Keys `raw` must hold, and keys `raw['user']` must hold. */
  const RawRequired: set<string> := {"user", "id", "text", "truncated", "created_at"}
  const UserRequired: set<string> := {"id", "screen_name", "name", "verified"}

  /** A count value Python can compare with 0 (`None`, a number, a boolean). */
  predicate Comparable(c: Option<Value>) {
    c.None? || c.value.Null? || c.value.Int? || c.value.Bool?
  }

  /** Everything the builder needs of a message for construction to succeed. */
  ghost predicate Buildable(raw: Object, parse: string -> Option<Timestamp>) {
    && RawRequired <= raw.Keys
    && raw["user"].Obj?
    && UserRequired <= raw["user"].fields.Keys
    && Comparable(Get(raw, "favorite_count")) && Comparable(Get(raw, "retweet_count"))
    && Comparable(Get(raw["user"].fields, "followers_count"))
    && Comparable(Get(raw["user"].fields, "friends_count"))
    && raw["created_at"].Str? && parse(raw["created_at"].s).Some?
    && (Get(raw, "retweeted_status").Some? ==>
          Get(raw, "retweeted_status").value.Obj? &&
          "id" in Get(raw, "retweeted_status").value.fields)
  }

  /** The key a `MissingKey` error names is one the message really lacks. */
  ghost predicate KeyMissing(raw: Object, path: string) {
    || (path in RawRequired && path !in raw)
    || ("user" in raw && raw["user"].Obj? &&
        ((path == "user.id" && "id" !in raw["user"].fields) ||
         (path == "user.screen_name" && "screen_name" !in raw["user"].fields) ||
         (path == "user.name" && "name" !in raw["user"].fields) ||
         (path == "user.verified" && "verified" !in raw["user"].fields)))
    || (path == "retweeted_status.id" && Get(raw, "retweeted_status").Some? &&
        Get(raw, "retweeted_status").value.Obj? &&
        "id" !in Get(raw, "retweeted_status").value.fields)
  }

  /** A count after sanitising: absent and negative become `None`, anything
      else is the message's value unchanged. */
  ghost predicate SanitisedFrom(c: Option<Value>, source: Option<Value>) {
    if source.None? || (source.value.Int? && source.value.i < 0) then c.None? else c == source
  }

  /** The four counts of a record. */
  function Counts(t: Tweet): (r: seq<Option<Value>>)
    ensures |r| == |CountKeys|
  {
    [t.favoriteCount, t.retweetCount, t.userFollowersCount, t.userFriendsCount]
  }

  /** Construction succeeds exactly when the message is buildable. */
  lemma BuildSucceedsIff(raw: Object, parse: string -> Option<Timestamp>)
    ensures Build(raw, parse).Success? <==> Buildable(raw, parse)
  {
  }

  /** The record a buildable message yields, field by field. */
  ghost function Record(raw: Object, parse: string -> Option<Timestamp>): (t: Tweet)
    requires Buildable(raw, parse)
  {
    var u := raw["user"].fields;
    Construct(raw, u, Get(raw, "retweeted_status"),
      Sanitize("favorite_count", Get(raw, "favorite_count")).value,
      Sanitize("retweet_count", Get(raw, "retweet_count")).value,
      Sanitize("user_followers_count", Get(u, "followers_count")).value,
      Sanitize("user_friends_count", Get(u, "friends_count")).value, parse).value
  }

  /** A buildable message builds to its field-by-field record. */
  lemma BuildShape(raw: Object, parse: string -> Option<Timestamp>)
    requires Buildable(raw, parse)
    ensures Build(raw, parse) == Success(Record(raw, parse))
  {
  }

  /** A missing required key, in `raw` or in `raw['user']`, makes
      construction fail and no record is produced. */
  lemma MissingRequiredKeyFails(raw: Object, parse: string -> Option<Timestamp>, key: string)
    requires (key in RawRequired && key !in raw) ||
             (key in UserRequired && "user" in raw && raw["user"].Obj? && key !in raw["user"].fields)
    ensures Build(raw, parse).Failure?
  {
    BuildSucceedsIff(raw, parse);
  }

  /** A missing required key is reported as a `MissingKey`, once `user`
      is an object and every count compares with 0, since those are checked
      before the keyword arguments are read. */
  lemma MissingKeyReported(raw: Object, parse: string -> Option<Timestamp>, key: string)
    requires "user" in raw && raw["user"].Obj?
    requires Comparable(Get(raw, "favorite_count")) && Comparable(Get(raw, "retweet_count"))
    requires Comparable(Get(raw["user"].fields, "followers_count"))
    requires Comparable(Get(raw["user"].fields, "friends_count"))
    requires (key in RawRequired && key !in raw) || (key in UserRequired && key !in raw["user"].fields)
    ensures Build(raw, parse).Failure? && Build(raw, parse).error.MissingKey?
    ensures KeyMissing(raw, Build(raw, parse).error.path)
  {
    FailureNamesMissingKey(raw, parse);
  }

  /** With every key present, `user` an object and every count comparable,
      a `created_at` that is not a date the parser accepts is reported as
      `UnparsableDate`, before the nested status is looked at. */
  lemma UnparsableDateReported(raw: Object, parse: string -> Option<Timestamp>)
    requires RawRequired <= raw.Keys && raw["user"].Obj? && UserRequired <= raw["user"].fields.Keys
    requires Comparable(Get(raw, "favorite_count")) && Comparable(Get(raw, "retweet_count"))
    requires Comparable(Get(raw["user"].fields, "followers_count"))
    requires Comparable(Get(raw["user"].fields, "friends_count"))
    requires !(raw["created_at"].Str? && parse(raw["created_at"].s).Some?)
    ensures Build(raw, parse) == Failure(UnparsableDate)
  {
  }

  /** Failures name a key the message lacks; a missing `user` is reported first. */
  lemma FailureNamesMissingKey(raw: Object, parse: string -> Option<Timestamp>)
    ensures "user" !in raw ==> Build(raw, parse) == Failure(MissingKey("user"))
    ensures Build(raw, parse).Failure? && Build(raw, parse).error.MissingKey? ==>
      KeyMissing(raw, Build(raw, parse).error.path)
  {
  }

  /** The required fields are copied from the message unchanged. */
  lemma RequiredFieldsCopied(raw: Object, parse: string -> Option<Timestamp>)
    requires Build(raw, parse).Success?
    ensures RawRequired <= raw.Keys && raw["user"].Obj? && UserRequired <= raw["user"].fields.Keys
    ensures var t, u := Build(raw, parse).value, raw["user"].fields;
      && t.tweetId == raw["id"] && t.text == raw["text"] && t.truncated == raw["truncated"]
      && t.userId == u["id"] && t.userScreenName == u["screen_name"]
      && t.userName == u["name"] && t.userVerified == u["verified"]
      && raw["created_at"].Str? && parse(raw["created_at"].s) == Some(t.createdAt)
  {
  }

  /** Optional fields are the message's value when present and `None` when
      absent or null. */
  lemma OptionalFieldsCopied(raw: Object, parse: string -> Option<Timestamp>)
    requires Build(raw, parse).Success?
    ensures var t, u := Build(raw, parse).value, raw["user"].fields;
      && (t.lang.None? <==> "lang" !in raw || raw["lang"] == Null)
      && (t.lang.Some? ==> t.lang.value == raw["lang"])
      && (t.filterLevel.None? <==> "filter_level" !in raw || raw["filter_level"] == Null)
      && (t.filterLevel.Some? ==> t.filterLevel.value == raw["filter_level"])
      && (t.inReplyToStatusId.None? <==>
            "in_reply_to_status_id" !in raw || raw["in_reply_to_status_id"] == Null)
      && (t.inReplyToStatusId.Some? ==> t.inReplyToStatusId.value == raw["in_reply_to_status_id"])
      && (t.userUtcOffset.None? <==> "utc_offset" !in u || u["utc_offset"] == Null)
      && (t.userUtcOffset.Some? ==> t.userUtcOffset.value == u["utc_offset"])
      && (t.userTimeZone.None? <==> "time_zone" !in u || u["time_zone"] == Null)
      && (t.userTimeZone.Some? ==> t.userTimeZone.value == u["time_zone"])
  {
  }

  /** Each count is sanitised from its own source value only. */
  lemma CountsSanitised(raw: Object, parse: string -> Option<Timestamp>)
    requires Build(raw, parse).Success?
    ensures var t, u := Build(raw, parse).value, raw["user"].fields;
      && SanitisedFrom(t.favoriteCount, Get(raw, "favorite_count"))
      && SanitisedFrom(t.retweetCount, Get(raw, "retweet_count"))
      && SanitisedFrom(t.userFollowersCount, Get(u, "followers_count"))
      && SanitisedFrom(t.userFriendsCount, Get(u, "friends_count"))
  {
  }

  /** After construction no present count is negative. */
  lemma PresentCountsNonNegative(raw: Object, parse: string -> Option<Timestamp>)
    requires Build(raw, parse).Success?
    ensures forall c :: c in Counts(Build(raw, parse).value) && c.Some? ==>
      (c.value.Int? && c.value.i >= 0) || c.value.Bool?
  {
  }

  /** Making a tweet-level count negative clears that count and changes
      nothing else in the record. */
  lemma NegativeTweetCountClearsOnlyIt(raw: Object, parse: string -> Option<Timestamp>, key: string, n: int)
    requires key == "favorite_count" || key == "retweet_count"
    requires n < 0
    requires Build(raw, parse).Success?
    ensures Build(raw[key := Int(n)], parse).Success?
    ensures var t := Build(raw, parse).value;
      Build(raw[key := Int(n)], parse).value ==
        if key == "favorite_count" then t.(favoriteCount := None) else t.(retweetCount := None)
  {
    BuildSucceedsIff(raw, parse);
    NegativeTweetCountEffect(raw, parse, key, n);
    BuildShape(raw, parse);
    BuildShape(raw[key := Int(n)], parse);
  }

  lemma NegativeTweetCountEffect(raw: Object, parse: string -> Option<Timestamp>, key: string, n: int)
    requires key == "favorite_count" || key == "retweet_count"
    requires n < 0
    requires Buildable(raw, parse)
    ensures Buildable(raw[key := Int(n)], parse)
    ensures var t := Record(raw, parse);
      Record(raw[key := Int(n)], parse) ==
        if key == "favorite_count" then t.(favoriteCount := None) else t.(retweetCount := None)
  {
    var raw' := raw[key := Int(n)];
    assert raw'["user"] == raw["user"];
    assert Get(raw', "retweeted_status") == Get(raw, "retweeted_status");
    if key == "favorite_count" {
      assert Get(raw', "retweet_count") == Get(raw, "retweet_count");
    } else {
      assert Get(raw', "favorite_count") == Get(raw, "favorite_count");
    }
  }

  /** Making a user-level count negative clears that count and changes
      nothing else in the record. */
  lemma NegativeUserCountClearsOnlyIt(raw: Object, parse: string -> Option<Timestamp>, key: string, n: int)
    requires key == "followers_count" || key == "friends_count"
    requires n < 0
    requires Build(raw, parse).Success?
    ensures raw["user"].Obj?
    ensures var raw' := raw["user" := Obj(raw["user"].fields[key := Int(n)])];
      && Build(raw', parse).Success?
      && var t := Build(raw, parse).value;
         Build(raw', parse).value ==
           if key == "followers_count" then t.(userFollowersCount := None)
           else t.(userFriendsCount := None)
  {
    var raw' := raw["user" := Obj(raw["user"].fields[key := Int(n)])];
    BuildSucceedsIff(raw, parse);
    NegativeUserCountBuildable(raw, parse, key, n);
    BuildShape(raw, parse);
    BuildShape(raw', parse);
    NegativeUserCountEffect(raw, parse, key, n);
  }

  lemma NegativeUserCountEffect(raw: Object, parse: string -> Option<Timestamp>, key: string, n: int)
    requires key == "followers_count" || key == "friends_count"
    requires n < 0
    requires Buildable(raw, parse)
    requires Buildable(raw["user" := Obj(raw["user"].fields[key := Int(n)])], parse)
    ensures var t := Record(raw, parse);
      Record(raw["user" := Obj(raw["user"].fields[key := Int(n)])], parse) ==
        if key == "followers_count" then t.(userFollowersCount := None)
        else t.(userFriendsCount := None)
  {
    var u, u' := raw["user"].fields, raw["user"].fields[key := Int(n)];
    var raw' := raw["user" := Obj(u')];
    var status := Get(raw, "retweeted_status");
    var favorites := Sanitize("favorite_count", Get(raw, "favorite_count")).value;
    var retweets := Sanitize("retweet_count", Get(raw, "retweet_count")).value;
    var followers := Sanitize("user_followers_count", Get(u', "followers_count")).value;
    var friends := Sanitize("user_friends_count", Get(u', "friends_count")).value;
    assert raw'["user"].fields == u';
    assert Get(raw', "retweeted_status") == status;
    ConstructIgnoresUserEntry(raw, Obj(u'), u', status, favorites, retweets, followers, friends, parse);
    ConstructIgnoresUserCount(raw, u, key, Int(n), status, favorites, retweets, followers, friends, parse);
  }

  /** `create_from_json` reads the user object's fields from `raw['user']`
      only once, through `u`. */
  lemma ConstructIgnoresUserEntry(raw: Object, v: Value, u: Object, status: Option<Value>,
                                  favorites: Option<Value>, retweets: Option<Value>,
                                  followers: Option<Value>, friends: Option<Value>,
                                  parse: string -> Option<Timestamp>)
    ensures Construct(raw["user" := v], u, status, favorites, retweets, followers, friends, parse)
         == Construct(raw, u, status, favorites, retweets, followers, friends, parse)
  {
    var raw' := raw["user" := v];
    assert forall k :: k != "user" ==> Get(raw', k) == Get(raw, k);
  }

  /** The user's counts reach the record only through their sanitised values. */
  lemma ConstructIgnoresUserCount(raw: Object, u: Object, key: string, x: Value, status: Option<Value>,
                                  favorites: Option<Value>, retweets: Option<Value>,
                                  followers: Option<Value>, friends: Option<Value>,
                                  parse: string -> Option<Timestamp>)
    requires key == "followers_count" || key == "friends_count"
    ensures Construct(raw, u[key := x], status, favorites, retweets, followers, friends, parse)
         == Construct(raw, u, status, favorites, retweets, followers, friends, parse)
  {
    var u' := u[key := x];
    assert forall k :: k != key ==> Get(u', k) == Get(u, k);
  }

  lemma NegativeUserCountBuildable(raw: Object, parse: string -> Option<Timestamp>, key: string, n: int)
    requires key == "followers_count" || key == "friends_count"
    requires Buildable(raw, parse)
    ensures Buildable(raw["user" := Obj(raw["user"].fields[key := Int(n)])], parse)
  {
  }

  /** `retweeted_status_id` is the nested status's `id` when there is a
      nested status, and `None` otherwise; `is_retweet` follows it. */
  lemma RetweetDetection(raw: Object, parse: string -> Option<Timestamp>)
    requires Build(raw, parse).Success?
    ensures var t, status := Build(raw, parse).value, Get(raw, "retweeted_status");
      && (status.None? ==> t.retweetedStatusId.None? && !IsRetweet(t))
      && (status.Some? ==> status.value.Obj? && t.retweetedStatusId == Get(status.value.fields, "id"))
      && (IsRetweet(t) <==> status.Some? && Get(status.value.fields, "id").Some?)
  {
  }

  /** A nested status without an `id` makes construction fail. */
  lemma RetweetWithoutIdFails(raw: Object, parse: string -> Option<Timestamp>)
    requires Get(raw, "retweeted_status").Some?
    requires Get(raw, "retweeted_status").value.Obj?
    requires "id" !in Get(raw, "retweeted_status").value.fields
    ensures Build(raw, parse).Failure?
  {
    BuildSucceedsIff(raw, parse);
  }

  /** The worked example: a status whose favourite count and user's follower
      count are reported as negative. */
  function ExampleStatus(): (raw: Object)
    ensures "user" in raw && raw["user"].Obj?
  {
    map["id" := Int(42), "text" := Str("hi"), "truncated" := Bool(false),
        "created_at" := Str("Wed Oct 10 20:19:24 +0000 2018"),
        "user" := Obj(map["id" := Int(7), "screen_name" := Str("a"), "name" := Str("A"),
                          "verified" := Bool(false), "followers_count" := Int(-5),
                          "friends_count" := Int(3)]),
        "favorite_count" := Int(-1)]
  }

  /** On the worked example the two negative counts become `None`, the
      others are kept and the tweet is not a retweet. */
  lemma ExampleStatusBuilds(parse: string -> Option<Timestamp>)
    requires parse("Wed Oct 10 20:19:24 +0000 2018").Some?
    ensures Build(ExampleStatus(), parse).Success?
    ensures var t := Build(ExampleStatus(), parse).value;
      && t.tweetId == Int(42)
      && t.userFollowersCount == None
      && t.userFriendsCount == Some(Int(3))
      && t.favoriteCount == None
      && t.retweetCount == None
      && t.retweetedStatusId == None
      && !IsRetweet(t)
  {
    var raw := ExampleStatus();
    var u := raw["user"].fields;
    assert Get(raw, "favorite_count") == Some(Int(-1));
    assert Get(raw, "retweet_count") == None;
    assert Get(raw, "retweeted_status") == None;
    assert Get(u, "followers_count") == Some(Int(-5));
    assert Get(u, "friends_count") == Some(Int(3));
    assert Buildable(raw, parse);
    BuildSucceedsIff(raw, parse);
    BuildShape(raw, parse);
  }
}
