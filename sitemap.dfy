/** The application's fixed paths, as declared in its route table and used by its links and redirects. */
module Sitemap {
  const RootPath := "/"
  const AboutPath := "/about"
  const ProductsPath := "/products"
  const ProductDetailPath := "/products/:productId"
  const ContactPath := "/contact"
  const LoginPath := "/login"
  const DashboardPath := "/dashboard"
  const CatchAllPath := "*"
}
