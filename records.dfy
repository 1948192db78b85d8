/**
 * The stored documents the services read and write (src/types/index.ts).
 * Timestamps are milliseconds since the epoch, in local time.
 */
module Records {
  import opened Wrappers

  /**
   * One entry of a journey's `readingLogs` collection.  `verseCount` is
   * `None` for a document whose field is missing; `note` is present only
   * when the reader wrote one.
   */
  datatype ReadingLog = ReadingLog(
    journeyId: string,
    loggedBy: string,
    loggedByName: string,
    readBy: seq<string>,
    readByNames: seq<string>,
    startRef: string,
    endRef: string,
    timestamp: int,
    note: Option<string>,
    verseCount: Option<int>)
}
