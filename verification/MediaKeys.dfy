// Object keys of media files, and the `mxc://` URIs made from them.
module MediaKeys {
  import opened Options
  import opened JsCollections

  // ---------- string operations ----------

  // `replace(/^\/+/, '')`
  function StripSlashes(s: string): string {
    if s != "" && s[0] == '/' then StripSlashes(s[1..]) else s
  }

  // `replace(/\//g, '_')`
  function Underscored(s: string): string {
    seq(|s|, i requires 0 <= i < |s| => if s[i] == '/' then '_' else s[i])
  }

  // The part of the string before the first character of a set.
  function Before(s: string, stops: set<char>): (r: string)
    ensures r <= s
  {
    if s == "" || s[0] in stops then "" else [s[0]] + Before(s[1..], stops)
  }

  // `split('/')[last]`
  function LastPart(s: string): string {
    if '/' !in s then s
    else if s[|s| - 1] == '/' then ""
    else LastPart(s[..|s| - 1]) + [s[|s| - 1]]
  }

  // `replace('_', '/')`, which replaces the first underscore only.
  function FirstToSlash(s: string): string {
    if s == "" then ""
    else if s[0] == '_' then "/" + s[1..]
    else [s[0]] + FirstToSlash(s[1..])
  }

  // ---------- upload and download ----------

  function MediaId(key: string): string {
    Underscored(StripSlashes(key))
  }

  function MxcUrl(bucket: string, region: string, key: string): string {
    "mxc://" + bucket + ".s3." + region + ".amazonaws.com/" + MediaId(key)
  }

  // The key that `downloadMediaFile` asks for.
  method KeyOfUri(uri: string) returns (key: string)
    ensures key == DownloadKey(uri)
  {
    var mediaIdPart := LastPart(uri);
    if '_' !in mediaIdPart {
      mediaIdPart := "media_" + mediaIdPart;
    }
    key := FirstToSlash(mediaIdPart);
  }

  function DownloadKey(uri: string): string {
    var part := LastPart(uri);
    FirstToSlash(if '_' in part then part else "media_" + part)
  }

  // The keys with one slash, neither at the front nor behind an underscore.
  ghost predicate Recoverable(key: string) {
    exists i :: IsTheSlash(key, i)
  }

  ghost predicate IsTheSlash(key: string, i: int) {
    0 < i < |key| && key[i] == '/' &&
    (forall j :: 0 <= j < |key| && j != i ==> key[j] != '/') &&
    (forall j :: 0 <= j < i ==> key[j] != '_')
  }

  lemma {:induction false} LastPartAfterSlash(a: string, b: string)
    requires '/' !in b
    ensures LastPart(a + "/" + b) == b
    decreases |b|
  {
    var s := a + "/" + b;
    assert s[|a|] == '/';
    if b != "" {
      var n := |b| - 1;
      assert s[..|s| - 1] == a + "/" + b[..n];
      LastPartAfterSlash(a, b[..n]);
    }
  }

  lemma {:induction false} FirstToSlashSpec(s: string) returns (i: nat)
    requires '_' in s
    ensures i < |s| && s[i] == '_' && FirstToSlash(s) == s[i := '/']
    ensures forall j :: 0 <= j < i ==> s[j] != '_'
  {
    if s[0] == '_' {
      i := 0;
    } else {
      var k := FirstToSlashSpec(s[1..]);
      i := k + 1;
    }
  }

  lemma {:induction false} StripSpec(s: string)
    ensures |StripSlashes(s)| <= |s|
    ensures StripSlashes(s) != "" ==> StripSlashes(s)[0] != '/'
    ensures s != "" && s[0] == '/' ==> |StripSlashes(s)| < |s|
    ensures s == "" || s[0] != '/' ==> StripSlashes(s) == s
  {
    if s != "" && s[0] == '/' {
      StripSpec(s[1..]);
    }
  }

  lemma MediaIdHasNoSlash(key: string)
    ensures '/' !in MediaId(key)
  {
  }

  lemma DownloadPart(bucket: string, region: string, key: string)
    ensures LastPart(MxcUrl(bucket, region, key)) == MediaId(key)
  {
    MediaIdHasNoSlash(key);
    var host := "mxc://" + bucket + ".s3." + region + ".amazonaws.com";
    assert MxcUrl(bucket, region, key) == host + "/" + MediaId(key);
    LastPartAfterSlash(host, MediaId(key));
  }

  // The host of the URI names the bucket, the service and the region,
  lemma HostOfMxcUrl(bucket: string, region: string, key: string)
    requires '/' !in bucket && '/' !in region
    ensures var rest := MxcUrl(bucket, region, key)[6..];
            && Before(rest, {'/'}) == Host(bucket, region)
            && rest[|Host(bucket, region)| + 1..] == MediaId(key)
  {
    var host := Host(bucket, region);
    var service, domain := ".s3.", ".amazonaws.com";
    assert '/' !in service && '/' !in domain;
    var tail := "/" + MediaId(key);
    assert MxcUrl(bucket, region, key) == "mxc://" + (host + tail);
    BeforeStop(host, tail, {'/'});
  }

  function Host(bucket: string, region: string): string {
    bucket + ".s3." + region + ".amazonaws.com"
  }

  // so that the URI tells both, and the media id, if no region has a dot.
  lemma MxcUrlTells(bucket: string, region: string, key: string, bucket': string, region': string, key': string)
    requires '/' !in bucket && '/' !in region && '.' !in region
    requires '/' !in bucket' && '/' !in region' && '.' !in region'
    ensures MxcUrl(bucket, region, key) == MxcUrl(bucket', region', key') <==>
            bucket == bucket' && region == region' && MediaId(key) == MediaId(key')
  {
    if MxcUrl(bucket, region, key) == MxcUrl(bucket', region', key') {
      hide MxcUrl, Before;
      HostOfMxcUrl(bucket, region, key);
      HostOfMxcUrl(bucket', region', key');
      var (front, front') := (bucket + ".s3.", bucket' + ".s3.");
      var host := Host(bucket, region);
      assert host[..|host| - 14] == front + region == front' + region';
      SameRegion(front, region, front', region');
      assert front[..|front| - 4] == bucket && front'[..|front'| - 4] == bucket';
    }
  }

  lemma SameRegion(front: string, region: string, front': string, region': string)
    requires front != "" && front[|front| - 1] == '.' && front' != "" && front'[|front'| - 1] == '.'
    requires '.' !in region && '.' !in region' && front + region == front' + region'
    ensures front == front' && region == region'
  {
    var s := front + region;
    assert s[|front| - 1] == '.' && s[|front'| - 1] == '.';
    assert forall i :: |front| <= i < |s| ==> s[i] in region;
    assert forall i :: |front'| <= i < |s| ==> s[i] in region';
    assert s[..|front|] == front && s[|front|..] == region;
  }

  // Downloading by the URI made on upload asks for the uploaded key exactly when the key has one
  // slash, not at the front, and no underscore before it.
  lemma UploadThenDownload(bucket: string, region: string, key: string)
    ensures DownloadKey(MxcUrl(bucket, region, key)) == key <==> Recoverable(key)
  {
    DownloadPart(bucket, region, key);
    if Recoverable(key) {
      RecoversKey(key);
    }
    var id := MediaId(key);
    var part := if '_' in id then id else "media_" + id;
    assert '_' in part by {
      assert '_' !in id ==> part[5] == '_';
    }
    if FirstToSlash(part) == key {
      OnlyRecoverable(key, part);
    }
  }

  lemma RecoversKey(key: string)
    requires Recoverable(key)
    ensures '_' in MediaId(key) && FirstToSlash(MediaId(key)) == key
  {
    var i :| IsTheSlash(key, i);
    StripSpec(key);
    var id := MediaId(key);
    assert id[i] == '_' && id[i := '/'] == key;
    var k := FirstToSlashSpec(id);
    assert i <= k;
  }

  lemma OnlyRecoverable(key: string, part: string)
    requires '_' in part && FirstToSlash(part) == key
    requires part == if '_' in MediaId(key) then MediaId(key) else "media_" + MediaId(key)
    ensures Recoverable(key)
  {
    MediaIdHasNoSlash(key);
    StripSpec(key);
    var i := FirstToSlashSpec(part);
    assert forall j :: 0 <= j < |part| ==> part[j] != '/';
    assert '_' !in MediaId(key) ==> i > 0 by {
      assert part[0] == '_' ==> '_' in MediaId(key);
    }
    assert IsTheSlash(key, i);
  }

  // ---------- the prefix of a media URI ----------

  const TABS_AND_LINE_ENDS := {'\t', '\n', '\r'}

  // The path of an `mxc://` URI with a well-formed authority, as URL parsing finds it: tabs and line
  // ends are dropped, and the path is the text behind the authority up to a query or a fragment.
  // None when the text is not such a URI: the code throws for what is no URI at all, and URIs of other
  // schemes are not modelled.
  function Pathname(url: string): Option<string> {
    var text := Except(url, TABS_AND_LINE_ENDS);
    if "mxc://" <= text then
      var rest := text[6..];
      var authority := Before(rest, {'/', '?', '#'});
      Some(Before(rest[|authority|..], {'?', '#'}))
    else None
  }

  // `extractObjectKeyPrefix`: the text before the first underscore of the first path segment.
  function ObjectKeyPrefix(url: string): Result<Option<string>> {
    var path := Pathname(url);
    if path.None? then Failure
    else if '_' !in path.value then Success(None)
    else if '/' !in path.value then Success(None)
    else
      var segment := Before(AfterFirstSlash(path.value), {'/'});
      Success(Some(Before(segment, {'_'})))
  }

  // What follows the first slash.
  function AfterFirstSlash(s: string): string {
    if s == "" then "" else if s[0] == '/' then s[1..] else AfterFirstSlash(s[1..])
  }

  const AVATARS := "avatars/"
  const MEDIA := "media/"

  // `extractPublicMediaType`
  function PublicMediaType(url: string): Result<Option<string>> {
    var prefix := ObjectKeyPrefix(url);
    if prefix.Failure? then Failure
    else if prefix.value.None? || prefix.value.value == "" then Success(None)
    else if prefix.value.value + "/" == AVATARS then Success(Some(AVATARS))
    else if prefix.value.value + "/" == MEDIA then Success(Some(MEDIA))
    else Success(None)
  }

  // A part of a host name, such as the name of a bucket or a region.
  ghost predicate HostPart(s: string) {
    forall c :: c in s ==> 'a' <= c <= 'z' || 'A' <= c <= 'Z' || '0' <= c <= '9' || c in {'-', '.', '_'}
  }

  lemma {:induction false} BeforeStop(a: string, b: string, stops: set<char>)
    requires forall c :: c in a ==> c !in stops
    requires b != "" && b[0] in stops
    ensures Before(a + b, stops) == a
  {
    if a == "" {
      assert a + b == b;
    } else {
      assert (a + b)[1..] == a[1..] + b;
      BeforeStop(a[1..], b, stops);
    }
  }

  lemma {:induction false} BeforeFree(s: string, stops: set<char>)
    requires forall c :: c in s ==> c !in stops
    ensures Before(s, stops) == s
  {
    if s != "" {
      BeforeFree(s[1..], stops);
    }
  }

  lemma {:induction false} BeforeSubset(s: string, stops: set<char>)
    ensures forall c :: c in Before(s, stops) ==> c in s && c !in stops
  {
    if !(s == "" || s[0] in stops) {
      BeforeSubset(s[1..], stops);
    }
  }

  // The media id as URL parsing reads it.
  ghost function ReadId(key: string): string {
    Except(MediaId(key), TABS_AND_LINE_ENDS)
  }

  lemma PathBehindHost(host: string, id: string)
    requires HostPart(host)
    ensures var rest := host + ("/" + id);
            Before(rest, {'/', '?', '#'}) == host && Before(rest[|host|..], {'?', '#'}) == "/" + Before(id, {'?', '#'})
  {
    var tail := "/" + id;
    BeforeStop(host, tail, {'/', '?', '#'});
    assert (host + tail)[|host|..] == tail;
    assert tail[1..] == id;
  }

  lemma TextOfMxcUrl(host: string, id: string)
    requires HostPart(host)
    ensures Except("mxc://" + host + "/" + id, TABS_AND_LINE_ENDS) ==
            "mxc://" + (host + ("/" + Except(id, TABS_AND_LINE_ENDS)))
  {
    hide Except;
    var scheme := "mxc://";
    var front := scheme + host + "/";
    assert forall c :: c in front ==> c in scheme || c in host || c == '/';
    ExceptConcat(front, id, TABS_AND_LINE_ENDS);
    ExceptNone(front, TABS_AND_LINE_ENDS);
    var rest := Except(id, TABS_AND_LINE_ENDS);
    assert front + rest == scheme + (host + ("/" + rest));
  }

  lemma PathOfMxcUrl(bucket: string, region: string, key: string)
    requires HostPart(bucket) && HostPart(region)
    ensures Pathname(MxcUrl(bucket, region, key)) == Some("/" + Before(ReadId(key), {'?', '#'}))
  {
    hide Before, Except, HostPart, MediaId;
    var host := bucket + ".s3." + region + ".amazonaws.com";
    HostIsHostPart(bucket, region);
    assert MxcUrl(bucket, region, key) == "mxc://" + host + "/" + MediaId(key);
    TextOfMxcUrl(host, MediaId(key));
    var rest := host + ("/" + ReadId(key));
    assert ("mxc://" + rest)[6..] == rest;
    PathBehindHost(host, ReadId(key));
  }

  lemma HostIsHostPart(bucket: string, region: string)
    requires HostPart(bucket) && HostPart(region)
    ensures HostPart(bucket + ".s3." + region + ".amazonaws.com")
  {
    var dot := ".s3.";
    var end := ".amazonaws.com";
    assert HostPart(dot) && HostPart(end);
  }

  // A word without stops and underscores ends at the first underscore of the path exactly when the
  // text starts with the word and an underscore.
  lemma {:induction false} WordBeforeUnderscore(s: string, word: string)
    requires forall c :: c in word ==> c !in {'?', '#', '_'}
    ensures var cut := Before(s, {'?', '#'});
            '_' in cut && Before(cut, {'_'}) == word <==> word + "_" <= s
    decreases |word|
  {
    var cut := Before(s, {'?', '#'});
    if word == "" {
      assert word + "_" == "_";
    } else if s != "" && s[0] == word[0] {
      assert s[0] in word;
      var rest := Before(s[1..], {'?', '#'});
      assert forall c :: c in word[1..] ==> c in word;
      WordBeforeUnderscore(s[1..], word[1..]);
      assert cut == [s[0]] + rest && '_' in cut <==> '_' in rest;
      assert cut[1..] == rest && Before(cut, {'_'}) == [s[0]] + Before(rest, {'_'});
      SameHead(Before(rest, {'_'}), word);
      PrefixBehindHead(s, word + "_");
      assert (word + "_")[1..] == word[1..] + "_";
    } else {
      assert (word + "_")[0] == word[0];
    }
  }

  lemma SameHead(s: string, word: string)
    requires word != ""
    ensures [word[0]] + s == word <==> s == word[1..]
  {
    assert ([word[0]] + s)[1..] == s;
  }

  lemma PrefixBehindHead(s: string, word: string)
    requires s != "" && word != "" && s[0] == word[0]
    ensures word <= s <==> word[1..] <= s[1..]
  {
    assert s == [s[0]] + s[1..] && word == [word[0]] + word[1..];
    if word <= s {
      assert s[1..][..|word| - 1] == s[..|word|][1..];
    }
  }

  lemma PrefixOfMxcUrl(bucket: string, region: string, key: string)
    requires HostPart(bucket) && HostPart(region)
    ensures var cut := Before(ReadId(key), {'?', '#'});
            ObjectKeyPrefix(MxcUrl(bucket, region, key)) ==
            Success(if '_' in cut then Some(Before(cut, {'_'})) else None)
  {
    hide MxcUrl, Pathname;
    var cut := Before(ReadId(key), {'?', '#'});
    PathOfMxcUrl(bucket, region, key);
    assert '/' !in cut by {
      BeforeSubset(ReadId(key), {'?', '#'});
      InExcept(MediaId(key), TABS_AND_LINE_ENDS);
      MediaIdHasNoSlash(key);
    }
    BeforeFree(cut, {'/'});
    assert ("/" + cut)[1..] == cut;
    assert '_' in "/" + cut <==> '_' in cut;
  }

  lemma TypeOfWord(word: string)
    ensures word + "/" == AVATARS <==> word == "avatars"
    ensures word + "/" == MEDIA <==> word == "media"
  {
    assert (word + "/")[..|word|] == word && AVATARS[..7] == "avatars" && MEDIA[..5] == "media";
  }

  // The media type of an upload URI is recovered exactly when the media id starts with the prefix,
  // its slash turned into an underscore.
  lemma MediaTypeExactly(bucket: string, region: string, key: string)
    requires HostPart(bucket) && HostPart(region)
    ensures var t := PublicMediaType(MxcUrl(bucket, region, key));
            && t.Success?
            && (t.value == Some(AVATARS) <==> "avatars_" <= ReadId(key))
            && (t.value == Some(MEDIA) <==> "media_" <= ReadId(key))
  {
    hide MxcUrl, ObjectKeyPrefix, ReadId, Before;
    var word := Before(Before(ReadId(key), {'?', '#'}), {'_'});
    PrefixOfMxcUrl(bucket, region, key);
    WordBeforeUnderscore(ReadId(key), "avatars");
    WordBeforeUnderscore(ReadId(key), "media");
    assert "avatars" + "_" == "avatars_" && "media" + "_" == "media_";
    TypeOfWord(word);
  }

  // Of an `mxc://` URI the media type can always be asked, and is one of the two or none.
  lemma MxcUrlsHaveTypes(url: string)
    requires "mxc://" <= Except(url, {'\t', '\n', '\r'})
    ensures PublicMediaType(url) in {Success(None), Success(Some("avatars/")), Success(Some("media/"))}
  {
  }

  // Both public prefixes followed by an id without slashes are recovered.
  lemma PublicPrefixRecovered(bucket: string, region: string, prefix: string, id: string)
    requires HostPart(bucket) && HostPart(region)
    requires (prefix == AVATARS || prefix == MEDIA) && '/' !in id
    ensures PublicMediaType(MxcUrl(bucket, region, prefix + id)) == Success(Some(prefix))
  {
    hide PublicMediaType, MxcUrl;
    var key := prefix + id;
    StripSpec(key);
    MediaTypeExactly(bucket, region, key);
    var word := if prefix == AVATARS then "avatars_" else "media_";
    assert MediaId(key) == word + id;
    ExceptConcat(word, id, TABS_AND_LINE_ENDS);
    ExceptNone(word, TABS_AND_LINE_ENDS);
  }
}
