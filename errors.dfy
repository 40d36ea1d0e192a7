/** The exceptions that travel through `function_app.py`. An `HTTPException`
    carries a status code and a `detail`; the detail texts (emoji and Spanish
    wording) are modelled by kind, and the text of a wrapped exception by the
    exception itself. */
module Errors {

  datatype Detail =
    | UnsupportedFormat              // "Formato de archivo no soportado."
    | ExtractionFailed(cause: Exc)   // "Error al extraer texto: {e}"
    | EmptySummary                   // "No se pudo generar un resumen válido."
    | ProcessingFailed(cause: Exc)   // "Error al procesar el archivo: {e}"
    | EmptyMessage                   // "El mensaje no puede estar vacío."
    | ChatFailed(cause: Exc)         // "Error en el chat: {e}"

  datatype Exc =
    | HttpException(status: int, detail: Detail)
    | ParserError(message: string)     // PyPDF2 or python-docx could not read the document
    | DecodeError(message: string)     // the bytes are not valid UTF-8
    | InferenceError(message: string)  // the call to the inference endpoint failed
    | AttributeError                   // `.strip()` applied to a `message` that is not a string
}
