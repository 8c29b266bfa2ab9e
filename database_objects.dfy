/** The music-database objects of src/objects/database.ts, built from one response record:
    files, songs, playlists and directories, and the song counters. A constructor that throws
    returns `Err` with the exception's message. */
module DatabaseObjects {
  import opened Wrappers
  import opened Text
  import opened Util

  /** `DirectoryEntryType`. */
  datatype EntryType = FileType | SongType | PlaylistType | DirectoryType

  /** The fields every directory entry has. */
  datatype EntryBase = EntryBase(path: string, lastModified: Option<string>, entryType: EntryType)

  /** The metadata of a song, as read from its record. */
  datatype SongTags = SongTags(
    tags: map<string, string>,
    showMovement: bool,
    duration: Option<JsNumber>,
    format: Option<string>,
    sampleRate: Option<JsNumber>,
    bitDepth: Option<JsNumber>,
    channels: Option<JsNumber>)

  /** A directory entry and its subclass. */
  datatype DirectoryEntry =
    | File(base: EntryBase, size: Option<JsNumber>)
    | Song(base: EntryBase, song: SongTags)
    | Playlist(base: EntryBase)
    | Directory(base: EntryBase)

  /** The entry type each subclass's constructor passes to the base constructor. */
  predicate Consistent(e: DirectoryEntry)
  {
    e.base.entryType == match e
      case File(_, _) => FileType
      case Song(_, _) => SongType
      case Playlist(_) => PlaylistType
      case Directory(_) => DirectoryType
  }

  function Get(valueMap: ValueMap, key: string): Option<string>
  {
    if key in valueMap then Some(valueMap[key]) else None
  }

  /** `valueMap.get(key)` is truthy: present and not the empty string. */
  predicate Truthy(valueMap: ValueMap, key: string)
  {
    key in valueMap && valueMap[key] != ""
  }

  // ---------------------------------------------------------------------------------
  // Constructors

  const PathNotFound := "Path not found for DirectoryEntry object"

  /** The `DirectoryEntry` constructor: throws without the path key, otherwise the path is
      that key's value. `Last-Modified` is kept as text. */
  function NewEntryBase(valueMap: ValueMap, pathKey: string, entryType: EntryType): (r: Result<EntryBase>)
    ensures r.Err? <==> pathKey !in valueMap
    ensures r.Err? ==> r.message == PathNotFound
    ensures r.Ok? ==> r.value.path == valueMap[pathKey] && r.value.entryType == entryType
    ensures r.Ok? ==> r.value.lastModified == Get(valueMap, "Last-Modified")
  {
    if pathKey !in valueMap then Err(PathNotFound)
    else Ok(EntryBase(valueMap[pathKey], Get(valueMap, "Last-Modified"), entryType))
  }

  /** The `File` constructor. */
  function NewFile(valueMap: ValueMap): (r: Result<DirectoryEntry>)
    ensures r.Err? <==> "file" !in valueMap
    ensures r.Ok? ==> r.value.File? && Consistent(r.value) && r.value.base.path == valueMap["file"]
    ensures r.Ok? ==> r.value.size == if "size" in valueMap then Some(ToNumber(valueMap["size"])) else None
  {
    match NewEntryBase(valueMap, "file", FileType)
    case Err(m) => Err(m)
    case Ok(b) => Ok(File(b, if "size" in valueMap then Some(ToNumber(valueMap["size"])) else None))
  }

  /** The song properties read verbatim, in the order the constructor sets them. */
  const SongPropertyNames: seq<string> := [
    "title", "titleSort", "name", "artist", "artistSort", "composer", "composerSort",
    "performer", "conductor", "album", "albumSort", "albumArtist", "albumArtistSort", "track",
    "disc", "label", "date", "originalDate", "genre", "mood", "work", "ensemble", "movement",
    "movementNumber", "location", "grouping", "comment", "musicBrainzArtistId",
    "musicBrainzAlbumId", "musicBrainzAlbumArtistId", "musicBrainzTrackId",
    "musicBrainzReleaseGroupId", "musicBrainzReleaseTrackId", "musicBrainzWorkId"]

  /** The record keys they are read from, in the same order. */
  const SongTagNames: seq<string> := [
    "Title", "TitleSort", "Name", "Artist", "ArtistSort", "Composer", "ComposerSort",
    "Performer", "Conductor", "Album", "AlbumSort", "AlbumArtist", "AlbumArtistSort", "Track",
    "Disc", "Label", "Date", "OriginalDate", "Genre", "Mood", "Work", "Ensemble", "Movement",
    "MovementNumber", "Location", "Grouping", "Comment", "MUSICBRAINZ_ARTISTID",
    "MUSICBRAINZ_ALBUMID", "MUSICBRAINZ_ALBUMARTISTID", "MUSICBRAINZ_TRACKID",
    "MUSICBRAINZ_RELEASEGROUPID", "MUSICBRAINZ_RELEASETRACKID", "MUSICBRAINZ_WORKID"]

  /** No property name is assigned twice. */
  predicate DistinctNames(names: seq<string>)
  {
    forall i, j :: 0 <= i < j < |names| ==> names[i] != names[j]
  }

  /** The verbatim properties that are present: property `names[i]` is read from record key
      `keys[i]`, and holds that key's value when the names are distinct. */
  function CopiedTags(valueMap: ValueMap, names: seq<string>, keys: seq<string>): (tags: map<string, string>)
    requires |names| == |keys|
    ensures forall i :: 0 <= i < |keys| && keys[i] in valueMap ==> names[i] in tags
    ensures forall p :: p in tags ==> exists i :: 0 <= i < |keys| && names[i] == p && keys[i] in valueMap
    ensures DistinctNames(names) ==>
      forall i :: 0 <= i < |keys| && keys[i] in valueMap ==> tags[names[i]] == valueMap[keys[i]]
  {
    if |keys| == 0 then map[]
    else
      var rest := CopiedTags(valueMap, names[1..], keys[1..]);
      assert forall i :: 1 <= i < |keys| ==> keys[i] == keys[1..][i - 1] && names[i] == names[1..][i - 1];
      if keys[0] in valueMap then rest[names[0] := valueMap[keys[0]]] else rest
  }

  /** The song properties have distinct names. */
  lemma SongTagNamesDistinct()
    ensures DistinctNames(SongPropertyNames)
  {
    var n := SongPropertyNames;
    forall i, j | 0 <= i < j < |n| ensures n[i] != n[j] {
      if j < 17 {
        NamesDistinctBelow(i, j);
      } else if 17 <= i {
        NamesDistinctAbove(i, j);
      } else {
        NamesDistinctAcross(i, j);
      }
    }
  }

  lemma NamesDistinctBelow(i: nat, j: nat)
    requires i < j < 17
    ensures SongPropertyNames[i] != SongPropertyNames[j]
  {
  }

  lemma NamesDistinctAbove(i: nat, j: nat)
    requires 17 <= i < j < |SongPropertyNames|
    ensures SongPropertyNames[i] != SongPropertyNames[j]
  {
  }

  lemma NamesDistinctAcross(i: nat, j: nat)
    requires i < 17 <= j < |SongPropertyNames|
    ensures SongPropertyNames[i] != SongPropertyNames[j]
  {
  }

  /** With distinct names, a property is present exactly when its key is. */
  lemma CopiedTagsExact(valueMap: ValueMap, names: seq<string>, keys: seq<string>)
    requires |names| == |keys| && DistinctNames(names)
    ensures var tags := CopiedTags(valueMap, names, keys);
      forall i :: 0 <= i < |keys| ==> (names[i] in tags <==> keys[i] in valueMap)
  {
    var tags := CopiedTags(valueMap, names, keys);
    forall i | 0 <= i < |keys| && names[i] in tags
      ensures keys[i] in valueMap
    {
      var j :| 0 <= j < |keys| && names[j] == names[i] && keys[j] in valueMap;
      assert j == i;
    }
  }

  /** `showMovement`: only the exact text `1` counts as true. */
  function ShowMovement(valueMap: ValueMap): (r: bool)
    ensures r <==> Get(valueMap, "ShowMovement") == Some("1")
  {
    "ShowMovement" in valueMap && valueMap["ShowMovement"] == "1"
  }

  /** `valueMap.get('duration') || valueMap.get('Time')`, then left undefined unless truthy. */
  function DurationString(valueMap: ValueMap): (r: Option<string>)
    ensures r.Some? ==> r.value != ""
    ensures Truthy(valueMap, "duration") ==> r == Some(valueMap["duration"])
    ensures !Truthy(valueMap, "duration") ==>
      r == if Truthy(valueMap, "Time") then Some(valueMap["Time"]) else None
  {
    if Truthy(valueMap, "duration") then Some(valueMap["duration"])
    else if Truthy(valueMap, "Time") then Some(valueMap["Time"])
    else None
  }

  /** `splitFormat[k]` read as a number, absent past the last field. */
  function FormatField(fields: seq<string>, k: nat): (r: Option<JsNumber>)
    ensures r.Some? <==> k < |fields|
    ensures k < |fields| ==> r == Some(ToNumber(fields[k]))
  {
    if k < |fields| then Some(ToNumber(fields[k])) else None
  }

  /** The fields of `format` split at `:`, none when it is absent or empty. */
  function FormatFields(format: Option<string>): (fields: seq<string>)
    ensures format.None? || format.value == "" ==> fields == []
    ensures format.Some? && format.value != "" ==> Join(fields, ":") == format.value
  {
    if format.Some? && format.value != "" then Split(format.value, ':') else []
  }

  /** The `Song` constructor. */
  function NewSong(valueMap: ValueMap): (r: Result<DirectoryEntry>)
    ensures r.Err? <==> "file" !in valueMap
    ensures r.Ok? ==> r.value.Song? && Consistent(r.value) && r.value.base.path == valueMap["file"]
    ensures r.Ok? ==> (r.value.song.showMovement <==> Get(valueMap, "ShowMovement") == Some("1"))
    ensures r.Ok? && Truthy(valueMap, "duration") ==>
              r.value.song.duration == Some(ToNumber(valueMap["duration"]))
    ensures r.Ok? && !Truthy(valueMap, "duration") && Truthy(valueMap, "Time") ==>
              r.value.song.duration == Some(ToNumber(valueMap["Time"]))
    ensures r.Ok? && !Truthy(valueMap, "duration") && !Truthy(valueMap, "Time") ==>
              r.value.song.duration == None
    ensures r.Ok? ==> r.value.song.format == Get(valueMap, "format")
    ensures r.Ok? && !Truthy(valueMap, "format") ==>
      r.value.song.sampleRate == None && r.value.song.bitDepth == None && r.value.song.channels == None
    ensures r.Ok? ==> var fields := FormatFields(Get(valueMap, "format"));
      && r.value.song.sampleRate == FormatField(fields, 0)
      && r.value.song.bitDepth == FormatField(fields, 1)
      && r.value.song.channels == FormatField(fields, 2)
    ensures r.Ok? ==> r.value.song.tags == CopiedTags(valueMap, SongPropertyNames, SongTagNames)
  {
    match NewEntryBase(valueMap, "file", SongType)
    case Err(m) => Err(m)
    case Ok(b) =>
      var duration := DurationString(valueMap);
      var format := Get(valueMap, "format");
      var fields := FormatFields(format);
      Ok(Song(b, SongTags(
        CopiedTags(valueMap, SongPropertyNames, SongTagNames),
        ShowMovement(valueMap),
        if duration.Some? then Some(ToNumber(duration.value)) else None,
        format,
        FormatField(fields, 0),
        FormatField(fields, 1),
        FormatField(fields, 2))))
  }

  /** A format of three colon-free fields `rate:bits:channels` gives each field, read as a
      number, in its place. */
  lemma FormatFieldsOfThree(valueMap: ValueMap, rate: string, bits: string, channels: string)
    requires Get(valueMap, "format") == Some(rate + ":" + bits + ":" + channels)
    requires ':' !in rate && ':' !in bits && ':' !in channels
    requires "file" in valueMap
    ensures NewSong(valueMap).Ok?
    ensures var s := NewSong(valueMap).value.song;
      && s.sampleRate == Some(ToNumber(rate))
      && s.bitDepth == Some(ToNumber(bits))
      && s.channels == Some(ToNumber(channels))
  {
    SplitThreeFields(rate, bits, channels);
    var fields := FormatFields(Get(valueMap, "format"));
    assert fields == [rate, bits, channels];
  }

  /** A format written `samplerate:bits:channels` in decimal is read back as those numbers. */
  lemma FormatRoundTrip(valueMap: ValueMap, rate: nat, bits: nat, channels: nat)
    requires Get(valueMap, "format") == Some(NatToString(rate) + ":" + NatToString(bits) + ":" + NatToString(channels))
    requires "file" in valueMap
    ensures NewSong(valueMap).Ok?
    ensures var s := NewSong(valueMap).value.song;
      s.sampleRate == Some(Finite(rate)) && s.bitDepth == Some(Finite(bits)) && s.channels == Some(Finite(channels))
  {
    NatToStringHasNoColon(rate);
    NatToStringHasNoColon(bits);
    NatToStringHasNoColon(channels);
    FormatFieldsOfThree(valueMap, NatToString(rate), NatToString(bits), NatToString(channels));
    NumberOfNatToString(rate, "");
    NumberOfNatToString(bits, "");
    NumberOfNatToString(channels, "");
  }

  /** The tags of a song: a property is set exactly when its record key is present, and then
      holds that key's value. */
  lemma SongTagValues(valueMap: ValueMap)
    requires "file" in valueMap
    ensures NewSong(valueMap).Ok?
    ensures var tags := NewSong(valueMap).value.song.tags;
      forall i :: 0 <= i < |SongPropertyNames| ==>
        && (SongPropertyNames[i] in tags <==> SongTagNames[i] in valueMap)
        && (SongTagNames[i] in valueMap ==> tags[SongPropertyNames[i]] == valueMap[SongTagNames[i]])
  {
    SongTagNamesDistinct();
    CopiedTagsExact(valueMap, SongPropertyNames, SongTagNames);
  }

  lemma NatToStringHasNoColon(n: nat)
    ensures ':' !in NatToString(n)
  {
    assert !IsDigit(':');
  }

  /** Three colon-free fields joined by `:` split back into those fields. */
  lemma SplitThreeFields(a: string, b: string, c: string)
    requires ':' !in a && ':' !in b && ':' !in c
    ensures Split(a + ":" + b + ":" + c, ':') == [a, b, c]
  {
    assert a + ":" + b + ":" + c == a + [':'] + (b + [':'] + c);
    SplitCons(a, b + [':'] + c, ':');
    SplitCons(b, c, ':');
    SplitNone(c, ':');
  }

  /** A format without `:` gives a sample rate only. */
  lemma FormatWithoutColon(valueMap: ValueMap)
    requires "file" in valueMap && Truthy(valueMap, "format") && ':' !in valueMap["format"]
    ensures NewSong(valueMap).Ok?
    ensures var s := NewSong(valueMap).value.song;
      s.sampleRate == Some(ToNumber(valueMap["format"])) && s.bitDepth == None && s.channels == None
  {
    SplitNone(valueMap["format"], ':');
  }

  /** The `Playlist` constructor. */
  function NewPlaylist(valueMap: ValueMap): (r: Result<DirectoryEntry>)
    ensures r.Err? <==> "playlist" !in valueMap
    ensures r.Ok? ==> r.value.Playlist? && Consistent(r.value) && r.value.base.path == valueMap["playlist"]
  {
    match NewEntryBase(valueMap, "playlist", PlaylistType)
    case Err(m) => Err(m)
    case Ok(b) => Ok(Playlist(b))
  }

  /** The `Directory` constructor. */
  function NewDirectory(valueMap: ValueMap): (r: Result<DirectoryEntry>)
    ensures r.Err? <==> "directory" !in valueMap
    ensures r.Ok? ==> r.value.Directory? && Consistent(r.value) && r.value.base.path == valueMap["directory"]
  {
    match NewEntryBase(valueMap, "directory", DirectoryType)
    case Err(m) => Err(m)
    case Ok(b) => Ok(Directory(b))
  }

  const UnknownEntryType := "Couldn't determine type of directory entry with keys "

  /** `DirectoryEntry.fromValueMap`: the first of `file`, `directory` and `playlist` with a
      non-empty value decides the kind, and its value is the path; a file is a `Song` when
      metadata is wanted. With none of them it throws. */
  function FromValueMap(valueMap: ValueMap, withMetadata: bool): (r: Result<DirectoryEntry>)
    ensures r.Ok? <==> Truthy(valueMap, "file") || Truthy(valueMap, "directory") || Truthy(valueMap, "playlist")
    ensures r.Err? ==> StartsWith(r.message, UnknownEntryType)
    ensures r.Ok? ==> Consistent(r.value) && r.value.base.path != ""
    ensures Truthy(valueMap, "file") ==>
      r.Ok? && r.value.base.path == valueMap["file"] && (if withMetadata then r.value.Song? else r.value.File?)
    ensures !Truthy(valueMap, "file") && Truthy(valueMap, "directory") ==>
      r.Ok? && r.value.Directory? && r.value.base.path == valueMap["directory"]
    ensures !Truthy(valueMap, "file") && !Truthy(valueMap, "directory") && Truthy(valueMap, "playlist") ==>
      r.Ok? && r.value.Playlist? && r.value.base.path == valueMap["playlist"]
  {
    if Truthy(valueMap, "file") then
      if withMetadata then NewSong(valueMap) else NewFile(valueMap)
    else if Truthy(valueMap, "directory") then NewDirectory(valueMap)
    else if Truthy(valueMap, "playlist") then NewPlaylist(valueMap)
    else Err(UnknownEntryType)
  }

  /** The record the daemon sends for an entry: its kind's key and the path. */
  function PathKey(t: EntryType): string
  {
    match t
    case FileType => "file"
    case SongType => "file"
    case PlaylistType => "playlist"
    case DirectoryType => "directory"
  }

  /** Reading back an entry's own record gives an entry of that kind and path; `File` and
      `Song` are told apart only by `withMetadata`. */
  lemma FromValueMapOfEntry(t: EntryType, path: string, withMetadata: bool)
    requires path != ""
    requires t == FileType ==> !withMetadata
    requires t == SongType ==> withMetadata
    ensures var r := FromValueMap(map[PathKey(t) := path], withMetadata);
      r.Ok? && r.value.base.path == path && r.value.base.entryType == t
  {
    var vm := map[PathKey(t) := path];
    assert t !in {FileType, SongType} ==> !Truthy(vm, "file");
    assert t == PlaylistType ==> !Truthy(vm, "directory");
  }

  // ---------------------------------------------------------------------------------
  // The type tests

  /** `isFile`. */
  function IsFile(e: DirectoryEntry): (r: bool)
    ensures Consistent(e) ==> (r <==> e.File?)
  {
    e.base.entryType == FileType
  }

  /** `isSong`. */
  function IsSong(e: DirectoryEntry): (r: bool)
    ensures Consistent(e) ==> (r <==> e.Song?)
  {
    e.base.entryType == SongType
  }

  /** `isPlaylist`. */
  function IsPlaylist(e: DirectoryEntry): (r: bool)
    ensures Consistent(e) ==> (r <==> e.Playlist?)
  {
    e.base.entryType == PlaylistType
  }

  /** `isDirectory`. */
  function IsDirectory(e: DirectoryEntry): (r: bool)
    ensures Consistent(e) ==> (r <==> e.Directory?)
  {
    e.base.entryType == DirectoryType
  }

  // ---------------------------------------------------------------------------------
  // Counters and plain records

  datatype SongCount = SongCount(songs: JsNumber, playtime: JsNumber)

  datatype GroupedSongCount = GroupedSongCount(count: SongCount, group: string)

  /** `GroupedTagList`: the grouping values and the tag values under them. */
  datatype GroupedTagList = GroupedTagList(group: seq<string>, tags: seq<string>)

  /** `Picture`: the image bytes and the `type` value, if any. */
  datatype Picture = Picture(data: seq<Byte>, mimeType: Option<string>)

  const SongsNotFound := "Number of songs not found for SongCount object"
  const PlaytimeNotFound := "Playtime of songs not found for SongCount object"

  /** The `SongCount` constructor: throws unless both `songs` and `playtime` are present,
      checking `songs` first. */
  function NewSongCount(valueMap: ValueMap): (r: Result<SongCount>)
    ensures r.Ok? <==> "songs" in valueMap && "playtime" in valueMap
    ensures "songs" !in valueMap ==> r == Err(SongsNotFound)
    ensures "songs" in valueMap && "playtime" !in valueMap ==> r == Err(PlaytimeNotFound)
    ensures r.Ok? ==> r.value == SongCount(ToNumber(valueMap["songs"]), ToNumber(valueMap["playtime"]))
  {
    if "songs" !in valueMap then Err(SongsNotFound)
    else if "playtime" !in valueMap then Err(PlaytimeNotFound)
    else Ok(SongCount(ToNumber(valueMap["songs"]), ToNumber(valueMap["playtime"])))
  }

  function GroupNotFound(groupingTag: string): string
  {
    "'" + groupingTag + "' not found for GroupedSongCount object"
  }

  /** The `GroupedSongCount` constructor: the `SongCount` checks first, then the grouping
      tag must be present; `group` is its value. */
  function NewGroupedSongCount(valueMap: ValueMap, groupingTag: string): (r: Result<GroupedSongCount>)
    ensures r.Ok? <==> "songs" in valueMap && "playtime" in valueMap && groupingTag in valueMap
    ensures NewSongCount(valueMap).Err? ==> r == Err(NewSongCount(valueMap).message)
    ensures NewSongCount(valueMap).Ok? && groupingTag !in valueMap ==> r == Err(GroupNotFound(groupingTag))
    ensures r.Ok? ==> r.value.group == valueMap[groupingTag] && r.value.count == NewSongCount(valueMap).value
  {
    match NewSongCount(valueMap)
    case Err(m) => Err(m)
    case Ok(c) =>
      if groupingTag !in valueMap then Err(GroupNotFound(groupingTag))
      else Ok(GroupedSongCount(c, valueMap[groupingTag]))
  }
}
