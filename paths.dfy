/**
  The storage and database paths the web client builds
  (web/app/constants/storage.ts, web/app/constants/firestore.ts), and how
  they meet the agent's side: the prefix its file mirror lists and the
  basename it files a blob under (agent/main.py).
*/
module Paths {
  import opened Strings
  import FileSync

  /** `getSharedFolderPath`. */
  function SharedFolderPath(deviceId: string): string {
    "agents/" + deviceId + "/shared"
  }

  /** `getSharedFilePath`. */
  function SharedFilePath(deviceId: string, fileName: string): string {
    "agents/" + deviceId + "/shared/" + fileName
  }

  /** The prefix `FileSyncer.run` lists blobs under. */
  function ListingPrefix(deviceId: string): string {
    "agents/" + deviceId + "/shared/"
  }

  /** A file path is its folder path, a slash and the name; it starts with the agent's listing prefix. */
  lemma SharedFileInFolder(deviceId: string, fileName: string)
    ensures SharedFilePath(deviceId, fileName) == SharedFolderPath(deviceId) + "/" + fileName
    ensures StartsWith(SharedFilePath(deviceId, fileName), ListingPrefix(deviceId))
    ensures SharedFilePath(deviceId, fileName)[|ListingPrefix(deviceId)|..] == fileName
  {
    var p := SharedFilePath(deviceId, fileName);
    assert p == ListingPrefix(deviceId) + fileName;
  }

  /** An uploaded file whose name has no slash is mirrored under that same name. */
  lemma UploadLandsUnderName(deviceId: string, fileName: string)
    requires '/' !in fileName
    ensures FileSync.Basename(SharedFilePath(deviceId, fileName)) == fileName
  {
    assert SharedFilePath(deviceId, fileName) == SharedFolderPath(deviceId) + "/" + fileName;
    FileSync.BasenameAfterSlash(SharedFolderPath(deviceId), fileName);
  }

  const FIRESTORE_COLLECTION_DEVICES := "devices"
  const FIRESTORE_COLLECTION_COMMANDS := "commands"

  /** `getCommandsCollectionPath`. */
  function CommandsCollectionPath(deviceId: string): seq<string> {
    [FIRESTORE_COLLECTION_DEVICES, deviceId, FIRESTORE_COLLECTION_COMMANDS]
  }

  /** `getCommandDocumentPath`. */
  function CommandDocumentPath(deviceId: string, commandId: string): seq<string> {
    [FIRESTORE_COLLECTION_DEVICES, deviceId, FIRESTORE_COLLECTION_COMMANDS, commandId]
  }

  /** `getDeviceDocumentPath`. */
  function DeviceDocumentPath(deviceId: string): seq<string> {
    [FIRESTORE_COLLECTION_DEVICES, deviceId]
  }

  /**
    A command document sits in its device's commands collection, which
    sits under the device document; documents have an even number of
    segments and collections an odd number, as the database requires.
  */
  lemma PathShapes(deviceId: string, commandId: string)
    ensures CommandDocumentPath(deviceId, commandId) == CommandsCollectionPath(deviceId) + [commandId]
    ensures DeviceDocumentPath(deviceId) <= CommandsCollectionPath(deviceId)
    ensures |DeviceDocumentPath(deviceId)| % 2 == 0 && |CommandDocumentPath(deviceId, commandId)| % 2 == 0
    ensures |CommandsCollectionPath(deviceId)| % 2 == 1
  {
  }

  /** Distinct devices or command ids give distinct document paths. */
  lemma DocumentPathsInjective(d1: string, c1: string, d2: string, c2: string)
    requires CommandDocumentPath(d1, c1) == CommandDocumentPath(d2, c2)
    ensures d1 == d2 && c1 == c2
  {
    assert CommandDocumentPath(d1, c1)[1] == d1 && CommandDocumentPath(d1, c1)[3] == c1;
  }
}
