/**
 * JSON shapes and names shared by the request bodies the client sends to the
 * remote generation API: text parts, safety settings, and the fixed strings
 * naming harm categories and blocking thresholds.
 */
module ApiTypes {

  /** A `{text: ...}` part of a content turn or of a system instruction. */
  datatype TextPart = TextPart(text: string)

  /** A `{category, threshold}` entry of a request's safety settings. */
  datatype SafetySetting = SafetySetting(category: string, threshold: string)

  const HarmCategoryHarassment := "HARM_CATEGORY_HARASSMENT"
  const HarmCategoryHateSpeech := "HARM_CATEGORY_HATE_SPEECH"
  const HarmCategorySexuallyExplicit := "HARM_CATEGORY_SEXUALLY_EXPLICIT"
  const HarmCategoryDangerousContent := "HARM_CATEGORY_DANGEROUS_CONTENT"
  const HarmCategoryCivicIntegrity := "HARM_CATEGORY_CIVIC_INTEGRITY"

  const BlockNone := "BLOCK_NONE"
  const BlockOnlyHigh := "BLOCK_ONLY_HIGH"
  const BlockMediumAndAbove := "BLOCK_MEDIUM_AND_ABOVE"
  const BlockLowAndAbove := "BLOCK_LOW_AND_ABOVE"
  const ThresholdUnspecified := "HARM_BLOCK_THRESHOLD_UNSPECIFIED"
}
