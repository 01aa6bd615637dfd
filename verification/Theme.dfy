/** Theme files as the command line tool sees them, locally and in the listings
    of a remote theme. */
module Theme {
  import opened Text

  datatype Asset = Asset(key: string, checksum: string, attachment: Option<string>, value: Option<string>)

  datatype Checksum = Checksum(key: string, checksum: string)

  function AssetKey(asset: Asset): string { asset.key }

  function ChecksumKey(checksum: Checksum): string { checksum.key }

  datatype RemoteResult = RemoteResult(key: string, success: bool, errors: seq<string>)
}
