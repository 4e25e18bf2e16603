/** The per-chat settings record and its column defaults. */
module Models {

  /** `ChatSettings`: the filters, limits and feature switches of one chat. */
  datatype ChatSettings = ChatSettings(
    blockLinks: bool,
    blockAds: bool,
    blockArab: bool,
    blockSwear: bool,
    blockChannelPosts: bool,
    hideServiceMsgs: bool,
    adsDailyLimit: int,
    antifloodEnabled: bool,
    floodMaxMsgs: int,
    floodWindowSec: int,
    raidLimit: int,
    raidWindowMin: int,
    raidCloseMin: int,
    forceAddEnabled: bool,
    forceAddRequired: int,
    forceText: string,
    forceTextDeleteSec: int,
    forceTextRepeatSec: int,
    forceTextRepeatDeleteSec: int,
    linkedChannel: string,
    antisameEnabled: bool,
    antisameMinutes: int)

  /** The row `get_or_create_settings` inserts for a chat it has not seen:
      every filter off, 20 ads a day, flood 15 messages in 5 seconds, raid
      limit 200 with a window of 1 and a close of 10, no force-add, no linked
      channel, anti-same off with 120 minutes. */
  const Defaults := ChatSettings(
    blockLinks := false,
    blockAds := false,
    blockArab := false,
    blockSwear := false,
    blockChannelPosts := false,
    hideServiceMsgs := false,
    adsDailyLimit := 20,
    antifloodEnabled := false,
    floodMaxMsgs := 15,
    floodWindowSec := 5,
    raidLimit := 200,
    raidWindowMin := 1,
    raidCloseMin := 10,
    forceAddEnabled := false,
    forceAddRequired := 0,
    forceText := "Guruhda yozish uchun odam qo‘shing.",
    forceTextDeleteSec := 30,
    forceTextRepeatSec := 0,
    forceTextRepeatDeleteSec := 0,
    linkedChannel := "",
    antisameEnabled := false,
    antisameMinutes := 120)
}
