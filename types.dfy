/**
 * The records that travel between the landing page, the builder page and
 * the two streaming endpoints.
 */
module Types {
  /** The capture result the landing page receives from `/api/scrape`. */
  datatype ScrapeResult = ScrapeResult(screenshot: string, html: string, title: string, url: string)

  /** The payload the landing page hands to the builder page. */
  datatype BuilderData = BuilderData(url: string, screenshot: string, html: string, title: string, prompt: string)

  /** The JSON body the builder page posts to `/api/generate`. */
  datatype GenerateRequest = GenerateRequest(screenshot: string, html: string, url: string, prompt: string)

  /** The JSON body the builder page posts to `/api/iterate`. */
  datatype IterateRequest = IterateRequest(currentHtml: string, instruction: string, url: string)
}
