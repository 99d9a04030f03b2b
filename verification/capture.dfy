/**
 * The camera capture library: finding video devices under /dev and collecting
 * the formats and frame sizes a camera reports. The directory read and the
 * driver queries are inputs: a listing, and the camera's answers.
 */
module Capture {
  import opened Basics
  import opened FilterMaps
  import opened StreamingCore

  const DevicePath: string := "/dev/"
  const VideoPrefix: string := "video"

  predicate StartsWith(s: string, prefix: string) {
    |prefix| <= |s| && s[..|prefix|] == prefix
  }

  predicate IsVideoName(name: string) {
    StartsWith(name, VideoPrefix)
  }

  /** A directory entry, by its file name after lossy conversion to a string. */
  datatype DirEntry = DirEntry(fileName: string)

  /** What reading a directory yields: per-entry results, or a failure to open it. */
  type Listing = Result<seq<Result<DirEntry, IoError>>, IoError>

  /** The device path an entry contributes, if any. */
  function CameraPathOf(entry: Result<DirEntry, IoError>): Option<string> {
    match entry
    case Ok(e) => if IsVideoName(e.fileName) then Some(DevicePath + e.fileName) else None
    case Err(_) => None
  }

  /** The device paths a successfully read directory yields, in entry order. */
  function CameraPaths(entries: seq<Result<DirEntry, IoError>>): seq<string> {
    FilterMap(entries, CameraPathOf)
  }

  /** Lists the video devices of a directory. */
  method DiscoverCameras(listing: Listing) returns (result: seq<string>)
    ensures listing.Err? ==> result == []
    ensures listing.Ok? ==> result == CameraPaths(listing.value)
    ensures listing.Ok? ==> |result| <= |listing.value|
    ensures forall k :: 0 <= k < |result| ==> StartsWith(result[k], DevicePath + VideoPrefix)
  {
    result := [];
    match listing
    case Ok(entries) =>
      for i := 0 to |entries|
        invariant result == CameraPaths(entries[..i])
        invariant forall k :: 0 <= k < |result| ==> StartsWith(result[k], DevicePath + VideoPrefix)
      {
        assert entries[..i + 1][..i] == entries[..i];
        match entries[i]
        case Ok(entry) =>
          var filename := entry.fileName;
          if StartsWith(filename, VideoPrefix) {
            result := result + [DevicePath + filename];
          }
        case Err(_) =>
      }
      assert entries[..|entries|] == entries;
    case Err(_) =>
  }

  /** Every path is "/dev/" followed by the name of a successfully read entry
      that starts with "video"; the entries behind the paths appear in
      directory order, each at most once; and every such entry has its path. */
  lemma CameraPathsFollowEntries(entries: seq<Result<DirEntry, IoError>>)
    ensures var paths, idx := CameraPaths(entries), KeptIndices(entries, CameraPathOf);
      && |idx| == |paths| <= |entries|
      && (forall k :: 0 <= k < |paths| ==>
            idx[k] < |entries| && entries[idx[k]].Ok?
            && IsVideoName(entries[idx[k]].value.fileName)
            && paths[k] == DevicePath + entries[idx[k]].value.fileName)
      && (forall k, l :: 0 <= k < l < |idx| ==> idx[k] < idx[l])
      && (forall i :: 0 <= i < |entries| && entries[i].Ok? && IsVideoName(entries[i].value.fileName) ==>
            i in idx)
  {
    KeptIndicesCorrect(entries, CameraPathOf);
  }

  /** Every path in the result is "/dev/" followed by the name of a
      successfully read entry that starts with "video". */
  lemma CameraPathHasEntry(entries: seq<Result<DirEntry, IoError>>, path: string)
    requires path in CameraPaths(entries)
    ensures exists i :: 0 <= i < |entries| && entries[i].Ok? && IsVideoName(entries[i].value.fileName)
                        && path == DevicePath + entries[i].value.fileName
  {
    FilterMapMember(entries, CameraPathOf, path);
    var i :| 0 <= i < |entries| && CameraPathOf(entries[i]) == Some(path);
    assert entries[i].Ok? && IsVideoName(entries[i].value.fileName);
  }

  /** A successfully read entry has its path in the result exactly when its
      name starts with "video". */
  lemma CameraPathPresentIffVideo(entries: seq<Result<DirEntry, IoError>>, i: nat)
    requires i < |entries| && entries[i].Ok?
    ensures DevicePath + entries[i].value.fileName in CameraPaths(entries)
            <==> IsVideoName(entries[i].value.fileName)
  {
    var name := entries[i].value.fileName;
    FilterMapMember(entries, CameraPathOf, DevicePath + name);
    if DevicePath + name in CameraPaths(entries) {
      var j :| 0 <= j < |entries| && CameraPathOf(entries[j]) == Some(DevicePath + name);
      var other := entries[j].value.fileName;
      assert (DevicePath + other)[|DevicePath|..] == other;
      assert (DevicePath + name)[|DevicePath|..] == name;
    } else {
      assert CameraPathOf(entries[i]) != Some(DevicePath + name);
    }
  }

  /** An entry that could not be read is skipped without ending the scan. */
  lemma ErroredEntrySkipped(before: seq<Result<DirEntry, IoError>>, e: IoError, after: seq<Result<DirEntry, IoError>>)
    ensures CameraPaths(before + [Err(e)] + after) == CameraPaths(before) + CameraPaths(after)
  {
    var skipped: seq<Result<DirEntry, IoError>> := [Err(e)];
    FilterMapAppend(before + skipped, after, CameraPathOf);
    FilterMapAppend(before, skipped, CameraPathOf);
    assert skipped[..0] == [];
  }

  /** A pair of frame dimensions, width first. */
  type Size = (uint32, uint32)

  /** The driver's answer to a frame-size query: a list of discrete sizes, or a
      stepwise range. */
  datatype ResolutionInfo =
    | Discretes(sizes: seq<Size>)
    | Stepwise(min: Size, max: Size, step: Size)

  /** A format description as the driver enumerates it. */
  datatype FormatInfo = FormatInfo(format: FourCC)

  /** The camera's answer to "which frame sizes for this FourCC?". */
  type ResolutionQuery = FourCC -> Result<ResolutionInfo, IoError>

  /** Maps each discrete size, in order, to a resolution. */
  function SizesToResolutions(sizes: seq<Size>): (rs: seq<Resolution>)
    ensures |rs| == |sizes|
    ensures forall i :: 0 <= i < |sizes| ==> rs[i] == Resolution(sizes[i].0, sizes[i].1)
  {
    if |sizes| == 0 then [] else [Resolution(sizes[0].0, sizes[0].1)] + SizesToResolutions(sizes[1..])
  }

  /** The sizes a list of resolutions stands for. */
  function ResolutionsToSizes(rs: seq<Resolution>): (sizes: seq<Size>)
    ensures |sizes| == |rs|
  {
    if |rs| == 0 then [] else [(rs[0].width, rs[0].height)] + ResolutionsToSizes(rs[1..])
  }

  /** No size is lost or altered in the conversion to resolutions. */
  lemma {:induction false} SizesRoundTrip(sizes: seq<Size>)
    ensures ResolutionsToSizes(SizesToResolutions(sizes)) == sizes
  {
    if |sizes| > 0 {
      SizesRoundTrip(sizes[1..]);
      assert SizesToResolutions(sizes)[1..] == SizesToResolutions(sizes[1..]);
    }
  }

  /** The resolutions recorded for a format: its discrete sizes, or none for a
      stepwise range. */
  function ToResolutions(info: ResolutionInfo): (rs: seq<Resolution>)
    ensures info.Discretes? ==> ResolutionsToSizes(rs) == info.sizes
    ensures info.Stepwise? ==> rs == []
  {
    match info
    case Discretes(sizes) => SizesRoundTrip(sizes); SizesToResolutions(sizes)
    case Stepwise(_, _, _) => []
  }

  /** The capability record one enumerated format contributes, if any. */
  function CapabilityOf(format: Result<FormatInfo, IoError>, query: ResolutionQuery): Option<FormatCapability> {
    match format
    case Ok(info) =>
      (match query(info.format)
       case Ok(resInfo) => Some(FormatCapability(FromFourCC(info.format), ToResolutions(resInfo)))
       case Err(_) => None)
    case Err(_) => None
  }

  function CapabilityFor(query: ResolutionQuery): Result<FormatInfo, IoError> -> Option<FormatCapability> {
    format => CapabilityOf(format, query)
  }

  /** The capability records a camera's format list yields, in enumeration order. */
  function FormatCapabilities(formats: seq<Result<FormatInfo, IoError>>, query: ResolutionQuery): seq<FormatCapability> {
    FilterMap(formats, CapabilityFor(query))
  }

  /** A camera device, by path, with its capabilities once discovered. The
      driver handle is not modelled. */
  datatype CameraInstance = CameraInstance(name: string, capabilities: Option<CameraCapabilities>)

  /** Records the capabilities the camera reports, replacing any earlier ones. */
  method DiscoverCapabilities(camera: CameraInstance, formats: seq<Result<FormatInfo, IoError>>, query: ResolutionQuery)
    returns (updated: CameraInstance)
    ensures updated.name == camera.name
    ensures updated.capabilities.Some?
    ensures updated.capabilities.value.formats == FormatCapabilities(formats, query)
    ensures |updated.capabilities.value.formats| <= |formats|
  {
    var found: seq<FormatCapability> := [];
    for i := 0 to |formats|
      invariant found == FormatCapabilities(formats[..i], query)
    {
      assert formats[..i + 1][..i] == formats[..i];
      match formats[i]
      case Ok(info) =>
        var pixelFormat := FromFourCC(info.format);
        match query(info.format) {
          case Ok(resolutionInfo) =>
            var resolutions := ToResolutions(resolutionInfo);
            found := found + [FormatCapability(pixelFormat, resolutions)];
          case Err(_) =>
        }
      case Err(_) =>
    }
    assert formats[..|formats|] == formats;
    updated := camera.(capabilities := Some(CameraCapabilities(found)));
  }

  /** Each record comes from one format that was enumerated and whose size
      query succeeded: its pixel format is the decoded FourCC and its
      resolutions are the query's answer. Records keep enumeration order, no
      format yields two, and every such format yields one. */
  lemma CapabilitiesFollowFormats(formats: seq<Result<FormatInfo, IoError>>, query: ResolutionQuery)
    ensures var caps, idx := FormatCapabilities(formats, query), KeptIndices(formats, CapabilityFor(query));
      && |idx| == |caps| <= |formats|
      && (forall k :: 0 <= k < |caps| ==>
            idx[k] < |formats| && formats[idx[k]].Ok?
            && query(formats[idx[k]].value.format).Ok?
            && caps[k] == FormatCapability(
                 FromFourCC(formats[idx[k]].value.format),
                 ToResolutions(query(formats[idx[k]].value.format).value)))
      && (forall k, l :: 0 <= k < l < |idx| ==> idx[k] < idx[l])
      && (forall i :: 0 <= i < |formats| && formats[i].Ok? && query(formats[i].value.format).Ok? ==>
            i in idx)
  {
    KeptIndicesCorrect(formats, CapabilityFor(query));
  }
}
