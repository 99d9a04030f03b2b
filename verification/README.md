# Camera capture core of a secure video streaming workspace

This project models, in Dafny, the self-contained logic of the workspace's
capture side:

- the `streaming_core` crate's `PixelFormat` enum and its conversion to and
  from V4L2 FourCC codes (`from_fourcc`, `to_fourcc`), together with the
  `Frame`, `Resolution`, `FormatCapability` and `CameraCapabilities` records;
- the capture library's `discover_cameras`, which turns a `/dev` listing
  into device paths, and `CameraInstance::discover_capabilities`, which turns
  a camera's format and frame-size answers into capability records.

Files:

- `basics.dfy` — module `Basics`: `uint8`/`uint32`/`uint64` for Rust's
  fixed-width integers, `Option`, `Result`, and an `IoError` whose code plays no part in the model.
- `filter_map.dfy` — module `FilterMaps`: the "push what the step produces,
  skip the rest" loop shape both capture routines share, with its order,
  membership and concatenation lemmas.
- `streaming_core.dfy` — module `StreamingCore`: the FourCC codec and records.
- `capture.dfy` — module `Capture`: camera discovery and capability collection.

The operating system and the `rscam` driver are inputs. A directory read is a
`Listing`: either an error, or a sequence of per-entry results. The camera's
format enumeration is a sequence of per-format results. Its frame-size query
is a function from FourCC to a `ResolutionInfo` result.

## Model

| member | source | states |
|---|---|---|
| StreamingCore.FromFourCC | crates/core/src/lib.rs:27-37 | decoding is total; a known code decodes to the format that encodes back to it, and any other 4-byte code decodes to YUYV |
| StreamingCore.ToFourCC | crates/core/src/lib.rs:39-48 | every format encodes to one of the six known codes |
| StreamingCore.FormatRoundTrip | crates/core/src/lib.rs:27-48 | decoding the code of a format gives that format back, for all six formats |
| StreamingCore.CodeRoundTrip | crates/core/src/lib.rs:28-46 | decoding then re-encoding gives the same code back if and only if the code is one of MJPG, YUYV, RGB3, BGR3, YU12, YV12 |
| StreamingCore.UnknownCodeFallsBack | crates/core/src/lib.rs:35 | an unknown code decodes to YUYV and so re-encodes as "YUYV" |
| StreamingCore.ToFourCCInjective | crates/core/src/lib.rs:39-47 | two formats have the same code if and only if they are the same format |
| StreamingCore.KnownCodesAreImage | crates/core/src/lib.rs:28-46 | the codes the decoder recognises are exactly the codes the encoder produces |
| StreamingCore.DecodePreimage | crates/core/src/lib.rs:27-37 | a code decodes to a format if and only if it is that format's code, or the format is YUYV and the code is unknown |
| StreamingCore.NormaliseIdempotent | crates/core/src/lib.rs:27-48 | normalising a code through the format type a second time changes nothing |
| Capture.DiscoverCameras | crates/capture/src/lib.rs:97-114 | an unreadable directory yields no paths; otherwise the paths are those of the listing, no more than its entries, each starting with "/dev/video" |
| Capture.CameraPathsFollowEntries | crates/capture/src/lib.rs:101-113 | each path is "/dev/" followed by the name of a successfully read entry starting with "video"; the entries behind the paths keep directory order and none is used twice; every such entry contributes its path |
| Capture.CameraPathPresentIffVideo | crates/capture/src/lib.rs:106-109 | a readable entry's "/dev/" path is in the result if and only if its name starts with "video" |
| Capture.ErroredEntrySkipped | crates/capture/src/lib.rs:104-105 | an entry that failed to read contributes nothing and the scan goes on over the entries after it |
| Capture.CameraPathHasEntry | crates/capture/src/lib.rs:98-108 | any path in the result is "/dev/" followed by the name of some successfully read entry that starts with "video" |
| Capture.SizesToResolutions | crates/capture/src/lib.rs:45-53 | discrete sizes map element-wise and in order to resolutions of the same width and height |
| Capture.SizesRoundTrip | crates/capture/src/lib.rs:46-52 | reading the sizes back from the resolutions gives the original size list |
| Capture.ToResolutions | crates/capture/src/lib.rs:44-55 | a discrete answer yields resolutions standing for exactly its sizes; a stepwise answer yields none |
| Capture.DiscoverCapabilities | crates/capture/src/lib.rs:34-65 | afterwards the camera's capabilities are present, even for an empty format list, hold the collected records, at most one per format, and the name is unchanged |
| Capture.CapabilitiesFollowFormats | crates/capture/src/lib.rs:38-61 | each record comes from a successfully enumerated format whose size query succeeded, carries the decoded FourCC and that query's resolutions, records keep enumeration order, and every such format yields exactly one record |

## Left out

- `CameraInstance::new` and the driver handle it opens (crates/capture/src/lib.rs:25-31): device I/O through `rscam`, which is not part of this model; a `CameraInstance` here is built directly from its name and capabilities.
- The real `/dev` read and `rscam`'s `formats()` and `resolutions()` calls: replaced by the `Listing`, format-result sequence and `ResolutionQuery` inputs. A query is a function of the FourCC, so a camera that would answer the same code differently on two calls is not represented.
- `to_string_lossy` on file names: a `DirEntry` carries the already converted name.
- `rscam`'s `ResolutionInfo` and `FormatInfo` types are not part of this model: the first is taken to be a discrete-size list or a stepwise range, and of the second only the FourCC, the one field the code reads, is kept.
- `get_capabilities` (crates/capture/src/lib.rs:83-85): a plain read of the `capabilities` field, which the model exposes directly.
- `print_capabilities` and the `Display` impl (crates/capture/src/lib.rs:68-92): console output only.
- `Frame.timestamp` (crates/core/src/lib.rs:10): wall-clock time has no behaviour to model.
- The capture actor binary (crates/capture/src/main.rs) and the capture-and-save binary (src/main.rs): channel plumbing around code not shown, and camera, JPEG and file I/O.
- Nothing outside `streaming_core` and the capture library is modelled.
