/** The kinds of failure the value objects raise; their classes and messages are not modelled. */
module Exception {

  datatype Error =
    | InvalidMinor          // a numeric field rejects its input
    | ExtensionMissing      // bump needs bcmath and it is not loaded
    | InvalidPreRelease
    | InvalidBuildMetadata
    | InvalidVersion
}
